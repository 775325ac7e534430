/** Lists of waiters whose counts are stored as differences: the absolute count of an entry is the sum of the counts up
    to it.  Both the timing wheel of the tasks and the list of software timers are made of these. */
module DeltaList {

  function CountOf(count: map<nat, int>, t: nat): int
  {
    if t in count then count[t] else 0
  }

  /** Sum of the first `n` differences of a list. */
  function Sum(l: seq<nat>, count: map<nat, int>, n: nat): int
    requires n <= |l|
  {
    if n == 0 then 0 else Sum(l, count, n - 1) + CountOf(count, l[n - 1])
  }

  /** The tasks of a list are different, and no difference is negative. */
  ghost predicate List(l: seq<nat>, count: map<nat, int>)
  {
    && (forall i | 0 <= i < |l| :: CountOf(count, l[i]) >= 0)
    && (forall i, j | 0 <= i < j < |l| :: l[i] != l[j])
  }

  lemma {:induction false} SumSame(l: seq<nat>, r0: map<nat, int>, r1: map<nat, int>, n: nat)
    requires n <= |l| && forall i | 0 <= i < n :: CountOf(r0, l[i]) == CountOf(r1, l[i])
    ensures Sum(l, r0, n) == Sum(l, r1, n)
  {
    if n > 0 { SumSame(l, r0, r1, n - 1); }
  }

  lemma {:induction false} SumMonotone(l: seq<nat>, count: map<nat, int>, m: nat, n: nat)
    requires List(l, count) && m <= n <= |l|
    ensures 0 <= Sum(l, count, m) <= Sum(l, count, n)
    decreases n
  {
    if m < n { SumMonotone(l, count, m, n - 1); } else if n > 0 { SumMonotone(l, count, n - 1, n - 1); }
  }

  function Inserted(l: seq<nat>, p: nat, t: nat): seq<nat>
    requires p <= |l|
  {
    l[..p] + [t] + l[p..]
  }

  function Removed(l: seq<nat>, p: nat): seq<nat>
    requires p < |l|
  {
    l[..p] + l[p + 1..]
  }

  lemma InsertedElements(l: seq<nat>, p: nat, t: nat)
    requires p <= |l|
    ensures |Inserted(l, p, t)| == |l| + 1
    ensures forall i | 0 <= i < |l| + 1 ::
              Inserted(l, p, t)[i] == if i < p then l[i] else if i == p then t else l[i - 1]
  {
  }

  lemma RemovedElements(l: seq<nat>, p: nat)
    requires p < |l|
    ensures |Removed(l, p)| == |l| - 1
    ensures forall i | 0 <= i < |l| - 1 :: Removed(l, p)[i] == if i < p then l[i] else l[i + 1]
  {
  }

  /** `t` is to stand at place `p`: it takes its difference out of the one behind it, and no other difference
      changes. */
  ghost predicate Opened(l: seq<nat>, r0: map<nat, int>, r1: map<nat, int>, p: nat, t: nat)
    requires p <= |l|
  {
    && CountOf(r1, t) >= 0
    && (p < |l| ==> CountOf(r1, l[p]) == CountOf(r0, l[p]) - CountOf(r1, t) && CountOf(r1, l[p]) >= 0)
    && forall x | x != t && (p < |l| ==> x != l[p]) :: CountOf(r1, x) == CountOf(r0, x)
  }

  /** Then every entry keeps its absolute count, and the new entry gets the sum in front of it plus its own. */
  lemma {:induction false} InsertSum(l: seq<nat>, r0: map<nat, int>, r1: map<nat, int>, p: nat, t: nat, j: nat)
    requires List(l, r0) && p <= |l| && j <= |l| + 1 && t !in l && Opened(l, r0, r1, p, t)
    ensures |Inserted(l, p, t)| == |l| + 1
    ensures Sum(Inserted(l, p, t), r1, j)
            == if j <= p then Sum(l, r0, j)
              else if j == p + 1 then Sum(l, r0, p) + CountOf(r1, t) else Sum(l, r0, j - 1)
    decreases j
  {
    InsertedElements(l, p, t);
    hide Inserted, CountOf;
    if j > 0 { InsertSum(l, r0, r1, p, t, j - 1); }
  }

  /** The entry at `p` is to go: the one behind it takes over its difference. */
  ghost predicate Closed(l: seq<nat>, r0: map<nat, int>, r1: map<nat, int>, p: nat)
    requires p < |l|
  {
    && (p + 1 < |l| ==> CountOf(r1, l[p + 1]) == CountOf(r0, l[p + 1]) + CountOf(r0, l[p]))
    && forall x | p + 1 < |l| ==> x != l[p + 1] :: CountOf(r1, x) == CountOf(r0, x)
  }

  lemma {:induction false} RemoveSum(l: seq<nat>, r0: map<nat, int>, r1: map<nat, int>, p: nat, j: nat)
    requires List(l, r0) && p < |l| && j < |l| && Closed(l, r0, r1, p)
    ensures |Removed(l, p)| == |l| - 1
    ensures Sum(Removed(l, p), r1, j) == if j <= p then Sum(l, r0, j) else Sum(l, r0, j + 1)
    decreases j
  {
    RemovedElements(l, p);
    hide Removed, CountOf;
    if j > 0 { RemoveSum(l, r0, r1, p, j - 1); }
  }

  function Scaled(count: int, unit: int, d: int): int { count * unit + d }

  /** An entry's ticks to go: its absolute count times a unit, plus an offset. */
  ghost predicate CountAt(l: seq<nat>, count: map<nat, int>, unit: int, d: int, rem: map<nat, int>, i: nat)
    requires i < |l|
  {
    l[i] in rem && rem[l[i]] == Scaled(Sum(l, count, i + 1), unit, d)
  }

  ghost predicate ListCounts(l: seq<nat>, count: map<nat, int>, unit: int, d: int, rem: map<nat, int>)
  {
    forall i | 0 <= i < |l| :: CountAt(l, count, unit, d, rem, i)
  }

  function IndexOf(l: seq<nat>, t: nat): (p: nat)
    requires t in l
    ensures p < |l| && l[p] == t
  {
    if l[0] == t then 0 else IndexOf(l[1..], t) + 1
  }

  lemma EntryCount(l: seq<nat>, count: map<nat, int>, unit: int, d: int, rem: map<nat, int>, i: nat)
    requires ListCounts(l, count, unit, d, rem) && i < |l|
    ensures l[i] in rem && rem[l[i]] == Scaled(Sum(l, count, i + 1), unit, d)
  {
    assert CountAt(l, count, unit, d, rem, i);
  }

  lemma InsertedElement(l: seq<nat>, p: nat, t: nat, i: nat)
    requires p <= |l| && i < |l| + 1
    ensures |Inserted(l, p, t)| == |l| + 1
            && Inserted(l, p, t)[i] == if i < p then l[i] else if i == p then t else l[i - 1]
  {
  }

  lemma RemovedElement(l: seq<nat>, p: nat, i: nat)
    requires p < |l| && i < |l| - 1
    ensures |Removed(l, p)| == |l| - 1 && Removed(l, p)[i] == if i < p then l[i] else l[i + 1]
  {
  }

  /** The differences are still not negative. */
  lemma InsertedSign(l: seq<nat>, r0: map<nat, int>, r1: map<nat, int>, p: nat, t: nat, i: nat)
    requires List(l, r0) && p <= |l| && Opened(l, r0, r1, p, t) && i < |l|
    ensures CountOf(r1, l[i]) >= 0
  {
    hide CountOf;
  }

  lemma RemovedSign(l: seq<nat>, r0: map<nat, int>, r1: map<nat, int>, p: nat, i: nat)
    requires List(l, r0) && p < |l| && Closed(l, r0, r1, p) && i < |l|
    ensures CountOf(r1, l[i]) >= 0
  {
    hide CountOf;
  }

  /** One entry after an insertion. */
  lemma InsertedAt(l: seq<nat>, r0: map<nat, int>, r1: map<nat, int>, p: nat, t: nat, unit: int, d: int,
                   rem: map<nat, int>, n: int, i: nat)
    requires List(l, r0) && p <= |l| && t !in l && Opened(l, r0, r1, p, t) && i < |Inserted(l, p, t)|
    requires ListCounts(l, r0, unit, d, rem) && n == Scaled(Sum(l, r0, p) + CountOf(r1, t), unit, d)
    ensures CountAt(Inserted(l, p, t), r1, unit, d, rem[t := n], i) && CountOf(r1, Inserted(l, p, t)[i]) >= 0
  {
    hide Inserted, CountOf, Sum, Scaled, List, Opened, ListCounts;
    InsertedElements(l, p, t);
    InsertedElement(l, p, t, i);
    InsertSum(l, r0, r1, p, t, i + 1);
    if i < p {
      EntryCount(l, r0, unit, d, rem, i);
      InsertedSign(l, r0, r1, p, t, i);
    } else if i > p {
      EntryCount(l, r0, unit, d, rem, i - 1);
      InsertedSign(l, r0, r1, p, t, i - 1);
    } else {
      NewSign(l, r0, r1, p, t);
    }
  }

  lemma NewSign(l: seq<nat>, r0: map<nat, int>, r1: map<nat, int>, p: nat, t: nat)
    requires p <= |l| && Opened(l, r0, r1, p, t)
    ensures CountOf(r1, t) >= 0
  {
  }

  lemma InsertedMembers(l: seq<nat>, p: nat, t: nat)
    requires p <= |l|
    ensures forall x :: x in Inserted(l, p, t) <==> x in l || x == t
  {
    InsertedElements(l, p, t);
    forall x | x in l ensures x in Inserted(l, p, t) {
      var i :| 0 <= i < |l| && l[i] == x;
      assert Inserted(l, p, t)[if i < p then i else i + 1] == x;
    }
    assert Inserted(l, p, t)[p] == t;
  }

  lemma InsertedList(l: seq<nat>, r0: map<nat, int>, r1: map<nat, int>, p: nat, t: nat, unit: int, d: int,
                     rem: map<nat, int>, n: int)
    requires List(l, r0) && p <= |l| && t !in l && Opened(l, r0, r1, p, t)
    requires ListCounts(l, r0, unit, d, rem) && n == Scaled(Sum(l, r0, p) + CountOf(r1, t), unit, d)
    ensures var m := Inserted(l, p, t); List(m, r1) && ListCounts(m, r1, unit, d, rem[t := n])
    ensures forall x :: x in Inserted(l, p, t) <==> x in l || x == t
  {
    var m := Inserted(l, p, t);
    var rem1 := rem[t := n];
    InsertedElements(l, p, t);
    InsertedMembers(l, p, t);
    forall i | 0 <= i < |m| ensures CountAt(m, r1, unit, d, rem1, i) && CountOf(r1, m[i]) >= 0 {
      InsertedAt(l, r0, r1, p, t, unit, d, rem, n, i);
    }
    hide Inserted, CountOf, Sum, CountAt, Opened;
  }

  /** A list none of whose tasks has been given another difference or another count. */
  lemma ListKept(l: seq<nat>, r0: map<nat, int>, r1: map<nat, int>, unit: int, d: int, rem0: map<nat, int>,
                 rem1: map<nat, int>)
    requires List(l, r0) && ListCounts(l, r0, unit, d, rem0)
    requires forall t | t in l :: CountOf(r1, t) == CountOf(r0, t) && (t in rem0 ==> t in rem1 && rem1[t] == rem0[t])
    ensures List(l, r1) && ListCounts(l, r1, unit, d, rem1)
  {
    forall i | 0 <= i < |l| ensures CountAt(l, r1, unit, d, rem1, i) {
      assert CountAt(l, r0, unit, d, rem0, i);
      SumSame(l, r0, r1, i + 1);
    }
  }

  /** One entry after a removal. */
  lemma RemovedAt(l: seq<nat>, r0: map<nat, int>, r1: map<nat, int>, p: nat, unit: int, d: int, rem: map<nat, int>,
                  i: nat)
    requires List(l, r0) && p < |l| && Closed(l, r0, r1, p) && ListCounts(l, r0, unit, d, rem) && i < |Removed(l, p)|
    ensures CountAt(Removed(l, p), r1, unit, d, rem - {l[p]}, i) && CountOf(r1, Removed(l, p)[i]) >= 0
  {
    hide Removed, CountOf, Sum, Scaled, Closed, ListCounts;
    var j := if i < p then i else i + 1;
    RemovedElements(l, p);
    RemovedElement(l, p, i);
    RemoveSum(l, r0, r1, p, i + 1);
    EntryCount(l, r0, unit, d, rem, j);
    RemovedSign(l, r0, r1, p, j);
    assert l[j] != l[p];
  }

  lemma RemovedMembers(l: seq<nat>, p: nat)
    requires p < |l| && forall i, j | 0 <= i < j < |l| :: l[i] != l[j]
    ensures forall x :: x in Removed(l, p) <==> x in l && x != l[p]
  {
    RemovedElements(l, p);
    forall x | x in l && x != l[p] ensures x in Removed(l, p) {
      var i :| 0 <= i < |l| && l[i] == x;
      assert Removed(l, p)[if i < p then i else i - 1] == x;
    }
  }

  lemma RemovedList(l: seq<nat>, r0: map<nat, int>, r1: map<nat, int>, p: nat, unit: int, d: int, rem: map<nat, int>)
    requires List(l, r0) && p < |l| && Closed(l, r0, r1, p) && ListCounts(l, r0, unit, d, rem)
    ensures var m := Removed(l, p); List(m, r1) && ListCounts(m, r1, unit, d, rem - {l[p]})
    ensures forall x :: x in Removed(l, p) <==> x in l && x != l[p]
  {
    var m := Removed(l, p);
    RemovedElements(l, p);
    RemovedMembers(l, p);
    forall i | 0 <= i < |m| ensures CountAt(m, r1, unit, d, rem - {l[p]}, i) && CountOf(r1, m[i]) >= 0 {
      RemovedAt(l, r0, r1, p, unit, d, rem, i);
    }
    hide Removed, CountOf, Sum, CountAt, Closed;
  }
}
