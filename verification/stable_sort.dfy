/** A stable sort by a rank, as `Array.prototype.sort` performs it with a
    three-way comparator over the ranks. Elements without a rank compare
    equal to everything. */
module StableSort {
  import opened Wrappers

  /** `rank(a) > rank(b)`: a comparison with a missing rank is false. */
  predicate Greater(a: Option<nat>, b: Option<nat>) {
    a.Some? && b.Some? && a.value > b.value
  }

  type Ranking<-T> = T -> Option<nat>

  /** The comparator: 1, -1 or 0. */
  function Compare<T>(a: T, b: T, rank: Ranking<T>): (c: int)
    ensures c == 1 <==> Greater(rank(a), rank(b))
    ensures c == -1 <==> Greater(rank(b), rank(a))
    ensures c == 0 <==> !Greater(rank(a), rank(b)) && !Greater(rank(b), rank(a))
  {
    if Greater(rank(a), rank(b)) then 1 else if Greater(rank(b), rank(a)) then -1 else 0
  }

  /** Insert `x` after the sorted prefix `s`, moving left past every element
      that compares greater than it. */
  function Insert<T>(s: seq<T>, x: T, rank: Ranking<T>): seq<T>
    decreases |s|
  {
    if |s| == 0 then [x]
    else if Compare(s[|s| - 1], x, rank) > 0 then Insert(s[..|s| - 1], x, rank) + [s[|s| - 1]]
    else s + [x]
  }

  /** A stable insertion sort with the comparator. */
  function InsertionSort<T>(s: seq<T>, rank: Ranking<T>): seq<T>
    decreases |s|
  {
    if |s| == 0 then []
    else Insert(InsertionSort(s[..|s| - 1], rank), s[|s| - 1], rank)
  }

  predicate AllRanked<T>(s: seq<T>, rank: Ranking<T>) {
    forall i :: 0 <= i < |s| ==> rank(s[i]).Some?
  }

  /** No element is ranked above a later one. */
  predicate Sorted<T>(s: seq<T>, rank: Ranking<T>) {
    forall i, j :: 0 <= i < j < |s| ==> !Greater(rank(s[i]), rank(s[j]))
  }

  /** The elements of rank `k`, in input order. */
  function OfRank<T>(s: seq<T>, k: nat, rank: Ranking<T>): (r: seq<T>)
    ensures forall i :: 0 <= i < |r| ==> rank(r[i]) == Some(k)
    decreases |s|
  {
    if |s| == 0 then []
    else OfRank(s[..|s| - 1], k, rank) + (if rank(s[|s| - 1]) == Some(k) then [s[|s| - 1]] else [])
  }

  // ---------------------------------------------------------------------
  // Permutation.

  lemma {:induction false} InsertPermutes<T>(s: seq<T>, x: T, rank: Ranking<T>)
    ensures multiset(Insert(s, x, rank)) == multiset(s) + multiset{x}
    decreases |s|
  {
    if |s| != 0 && Compare(s[|s| - 1], x, rank) > 0 {
      var init := s[..|s| - 1];
      InsertPermutes(init, x, rank);
      assert s == init + [s[|s| - 1]];
    }
  }

  /** The sort only reorders. */
  lemma {:induction false} InsertionSortPermutes<T>(s: seq<T>, rank: Ranking<T>)
    ensures multiset(InsertionSort(s, rank)) == multiset(s)
    decreases |s|
  {
    if |s| != 0 {
      var init, x := s[..|s| - 1], s[|s| - 1];
      var sorted := InsertionSort(init, rank);
      InsertionSortPermutes(init, rank);
      InsertPermutes(sorted, x, rank);
      assert InsertionSort(s, rank) == Insert(sorted, x, rank);
      assert s == init + [x];
    }
  }

  // ---------------------------------------------------------------------
  // Stability.

  lemma {:induction false} OfRankAppend<T>(a: seq<T>, b: seq<T>, k: nat, rank: Ranking<T>)
    ensures OfRank(a + b, k, rank) == OfRank(a, k, rank) + OfRank(b, k, rank)
    decreases |b|
  {
    if |b| == 0 {
      assert a + b == a;
    } else {
      var b0 := b[..|b| - 1];
      var ab := a + b;
      assert ab[..|ab| - 1] == a + b0;
      OfRankAppend(a, b0, k, rank);
    }
  }

  lemma OfRankSingle<T>(x: T, k: nat, rank: Ranking<T>)
    ensures OfRank([x], k, rank) == if rank(x) == Some(k) then [x] else []
  {
    assert [x][..0] == [];
  }

  /** Inserting adds `x` at the end of its own rank's run and changes no
      other rank's run. */
  lemma {:induction false} InsertOfRank<T>(s: seq<T>, x: T, k: nat, rank: Ranking<T>)
    ensures OfRank(Insert(s, x, rank), k, rank) == OfRank(s, k, rank) + OfRank([x], k, rank)
    decreases |s|
  {
    if |s| == 0 {
      OfRankSingle(x, k, rank);
    } else if Compare(s[|s| - 1], x, rank) > 0 {
      InsertOfRank(s[..|s| - 1], x, k, rank);
      InsertPastGreater(s[..|s| - 1], s[|s| - 1], x, k, rank);
      assert s[..|s| - 1] + [s[|s| - 1]] == s;
    } else {
      OfRankAppend(s, [x], k, rank);
    }
  }

  lemma InsertPastGreater<T>(init: seq<T>, last: T, x: T, k: nat, rank: Ranking<T>)
    requires Greater(rank(last), rank(x))
    requires OfRank(Insert(init, x, rank), k, rank) == OfRank(init, k, rank) + OfRank([x], k, rank)
    ensures OfRank(Insert(init + [last], x, rank), k, rank) == OfRank(init + [last], k, rank) + OfRank([x], k, rank)
  {
    var s := init + [last];
    assert s[..|s| - 1] == init && s[|s| - 1] == last;
    var t := Insert(init, x, rank);
    assert Insert(s, x, rank) == t + [last];
    OfRankAppend(init, [last], k, rank);
    OfRankAppend(t, [last], k, rank);
    OfRankSingle(last, k, rank);
    OfRankSingle(x, k, rank);
    var l, b := OfRank([last], k, rank), OfRank([x], k, rank);
    assert l == [] || b == [];
  }

  /** The sort is stable: for every rank, the elements of that rank keep
      their input order. This holds whatever the ranks, known or not. */
  lemma {:induction false} SortStable<T>(s: seq<T>, k: nat, rank: Ranking<T>)
    ensures OfRank(InsertionSort(s, rank), k, rank) == OfRank(s, k, rank)
    decreases |s|
  {
    if |s| != 0 {
      var init, x := s[..|s| - 1], s[|s| - 1];
      SortStable(init, k, rank);
      InsertOfRank(InsertionSort(init, rank), x, k, rank);
      assert s == init + [x];
      OfRankAppend(init, [x], k, rank);
    }
  }

  // ---------------------------------------------------------------------
  // Order.

  lemma InsertKeepsElements<T>(s: seq<T>, x: T, rank: Ranking<T>, y: T)
    requires y in Insert(s, x, rank)
    ensures y in s || y == x
  {
    InsertPermutes(s, x, rank);
    assert y in multiset(Insert(s, x, rank));
  }

  /** Inserting into a sorted list of ranked elements keeps it sorted. */
  lemma {:induction false} InsertSorted<T>(s: seq<T>, x: T, rank: Ranking<T>)
    requires AllRanked(s, rank) && rank(x).Some? && Sorted(s, rank)
    ensures AllRanked(Insert(s, x, rank), rank) && Sorted(Insert(s, x, rank), rank)
    decreases |s|
  {
    if |s| != 0 {
      var init, last := s[..|s| - 1], s[|s| - 1];
      assert forall i :: 0 <= i < |init| ==> init[i] == s[i];
      if Compare(last, x, rank) > 0 {
        InsertSorted(init, x, rank);
        var t := Insert(init, x, rank);
        forall i | 0 <= i < |t|
          ensures !Greater(rank(t[i]), rank(last))
        {
          InsertKeepsElements(init, x, rank, t[i]);
        }
        assert forall i :: 0 <= i < |t| ==> (t + [last])[i] == t[i];
      } else {
        assert forall i :: 0 <= i < |s| ==> !Greater(rank(s[i]), rank(last));
      }
    }
  }

  /** With every element ranked, the sort is ordered by rank. */
  lemma {:induction false} SortSorted<T>(s: seq<T>, rank: Ranking<T>)
    requires AllRanked(s, rank)
    ensures AllRanked(InsertionSort(s, rank), rank) && Sorted(InsertionSort(s, rank), rank)
    decreases |s|
  {
    if |s| != 0 {
      var init := s[..|s| - 1];
      assert forall i :: 0 <= i < |init| ==> init[i] == s[i];
      SortSorted(init, rank);
      InsertSorted(InsertionSort(init, rank), s[|s| - 1], rank);
    }
  }

  /** Example: two ranked elements out of order are swapped. */
  lemma SwapTwo<T>(w: T, a: T, rank: Ranking<T>)
    requires Greater(rank(w), rank(a))
    ensures InsertionSort([w, a], rank) == [a, w]
  {
    assert [w, a][..1] == [w] && [w][..0] == [];
    assert InsertionSort([w], rank) == Insert([], w, rank) == [w];
    assert InsertionSort([w, a], rank) == Insert([w], a, rank);
    assert Insert([w], a, rank) == Insert([], a, rank) + [w];
  }
}
