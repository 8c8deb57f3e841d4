/** The stable priority sort shared by `sortAndFixPriority` (ascending, comparator
    `a.summary.priority - b.summary.priority`) and `moveTaskPast` (ascending for `down1`,
    descending, comparator `b.summary.priority - a.summary.priority`, for `up1`).
    `Array.prototype.sort` is stable, so the result is the one sorted permutation that keeps
    the order of entries of equal priority. */
module PrioritySort {
  import opened Entries

  datatype Direction = Ascending | Descending

  function Priority(e: Entry): int { e.summary.priority }

  /** The key the comparator orders by: the priority, or its negation when descending. */
  function Rank(d: Direction, e: Entry): (r: int)
    ensures d == Ascending ==> r == Priority(e)
    ensures d == Descending ==> r == -Priority(e)
  {
    if d == Ascending then Priority(e) else -Priority(e)
  }

  predicate SortedBy(d: Direction, s: seq<Entry>) {
    forall i, j :: 0 <= i < j < |s| ==> Rank(d, s[i]) <= Rank(d, s[j])
  }

  /** Insert `e` after every entry that the comparator does not put after it. */
  function InsertBy(d: Direction, t: seq<Entry>, e: Entry): (r: seq<Entry>)
    ensures |r| == |t| + 1
  {
    if t == [] || Rank(d, t[|t| - 1]) <= Rank(d, e) then t + [e]
    else InsertBy(d, t[..|t| - 1], e) + [t[|t| - 1]]
  }

  /** The array after `sort` with the comparator of direction `d`. */
  function SortBy(d: Direction, s: seq<Entry>): (r: seq<Entry>)
    ensures |r| == |s|
  {
    if s == [] then [] else InsertBy(d, SortBy(d, s[..|s| - 1]), s[|s| - 1])
  }

  /** `[e]` when `e` has priority `v`, otherwise nothing. */
  function Only(e: Entry, v: int): seq<Entry> { if Priority(e) == v then [e] else [] }

  /** The entries of priority `v`, in order. */
  function WithPriority(s: seq<Entry>, v: int): seq<Entry> {
    if s == [] then []
    else WithPriority(s[..|s| - 1], v) + Only(s[|s| - 1], v)
  }

  /** Inserting adds `e` and keeps every other entry. */
  lemma {:induction false} InsertPerm(d: Direction, t: seq<Entry>, e: Entry)
    ensures multiset(InsertBy(d, t, e)) == multiset(t) + multiset{e}
  {
    if t == [] || Rank(d, t[|t| - 1]) <= Rank(d, e) {
    } else {
      InsertPerm(d, t[..|t| - 1], e);
      assert t == t[..|t| - 1] + [t[|t| - 1]];
    }
  }

  /** An entry ranked no lower than every entry of a sorted sequence may follow it. */
  lemma {:induction false} AppendSorted(d: Direction, r: seq<Entry>, last: Entry)
    requires SortedBy(d, r)
    requires forall x :: x in r ==> Rank(d, x) <= Rank(d, last)
    ensures SortedBy(d, r + [last])
  {
    forall i, j | 0 <= i < j < |r| + 1
      ensures Rank(d, (r + [last])[i]) <= Rank(d, (r + [last])[j])
    {
      if j == |r| {
        assert r[i] in r;
      }
    }
  }

  lemma {:induction false} InsertSorted(d: Direction, t: seq<Entry>, e: Entry)
    requires SortedBy(d, t)
    ensures SortedBy(d, InsertBy(d, t, e))
  {
    if t == [] || Rank(d, t[|t| - 1]) <= Rank(d, e) {
      AppendSorted(d, t, e);
    } else {
      var t' := t[..|t| - 1];
      var last := t[|t| - 1];
      InsertSorted(d, t', e);
      InsertPerm(d, t', e);
      var r' := InsertBy(d, t', e);
      forall x | x in r' ensures Rank(d, x) <= Rank(d, last) {
        assert x in multiset(r');
        if x != e {
          var m :| 0 <= m < |t'| && t'[m] == x;
          assert t[m] == x;
        }
      }
      AppendSorted(d, r', last);
    }
  }

  /** `SortBy` sorts, and what it returns is a permutation of its input. */
  lemma {:induction false} SortSorted(d: Direction, s: seq<Entry>)
    ensures SortedBy(d, SortBy(d, s))
    ensures multiset(SortBy(d, s)) == multiset(s)
  {
    if s != [] {
      SortSorted(d, s[..|s| - 1]);
      InsertSorted(d, SortBy(d, s[..|s| - 1]), s[|s| - 1]);
      InsertPerm(d, SortBy(d, s[..|s| - 1]), s[|s| - 1]);
      assert s == s[..|s| - 1] + [s[|s| - 1]];
    }
  }

  lemma {:induction false} WithPriorityAppend(s: seq<Entry>, e: Entry, v: int)
    ensures WithPriority(s + [e], v) == WithPriority(s, v) + Only(e, v)
  {
    assert (s + [e])[..|s|] == s;
  }

  /** Moving an entry of another priority past `e` does not change the order of either priority. */
  lemma {:induction false} StableStep(r: seq<Entry>, t: seq<Entry>, last: Entry, e: Entry, v: int)
    requires WithPriority(r, v) == WithPriority(t, v) + Only(e, v)
    requires Priority(e) != Priority(last)
    ensures WithPriority(r + [last], v) == WithPriority(t + [last], v) + Only(e, v)
  {
    WithPriorityAppend(r, last, v);
    WithPriorityAppend(t, last, v);
    SwapEmpty(WithPriority(r, v), WithPriority(t, v), Only(e, v), Only(last, v));
  }

  lemma SwapEmpty<T>(x: seq<T>, a: seq<T>, p: seq<T>, q: seq<T>)
    requires x == a + p
    requires p == [] || q == []
    ensures x + q == a + q + p
  {
    if p == [] {
      assert x == a;
    } else {
      assert x + q == x;
    }
  }

  lemma {:induction false} InsertStable(d: Direction, t: seq<Entry>, e: Entry, v: int)
    ensures WithPriority(InsertBy(d, t, e), v) == WithPriority(t, v) + Only(e, v)
  {
    if t == [] || Rank(d, t[|t| - 1]) <= Rank(d, e) {
      WithPriorityAppend(t, e, v);
    } else {
      var t' := t[..|t| - 1];
      var last := t[|t| - 1];
      assert t == t' + [last];
      assert InsertBy(d, t, e) == InsertBy(d, t', e) + [last];
      InsertStable(d, t', e, v);
      StableStep(InsertBy(d, t', e), t', last, e, v);
    }
  }

  /** `SortBy` is stable: the entries of any one priority keep their order. */
  lemma {:induction false} SortStable(d: Direction, s: seq<Entry>, v: int)
    ensures WithPriority(SortBy(d, s), v) == WithPriority(s, v)
  {
    if s != [] {
      SortStable(d, s[..|s| - 1], v);
      InsertStable(d, SortBy(d, s[..|s| - 1]), s[|s| - 1], v);
    }
  }
}
