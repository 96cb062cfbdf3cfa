/** `sortByTypes(data)` of packages/cli/src/utils/index.js: order configs so
    that apps, workflows and translations come first, then app actions,
    then operations, using `Array.prototype.sort` with a three-way
    comparator over the rank table. */
module SortTypes {
  import opened Wrappers
  import opened Js
  import opened StableSort

  /** The rank table `orders`, read with `orders[a.type]`: the property key
      is `String(a.type)`; any other key has no rank. */
  function RankOfName(t: string): Option<nat> {
    if t == "App" then Some(0)
    else if t == "Workflow" then Some(1)
    else if t == "Translation" then Some(2)
    else if t == "AppAction" then Some(3)
    else if t == "Operation" then Some(4)
    else None
  }

  function Rank(x: Json): (r: Option<nat>)
    ensures r.Some? ==> r.value < 5
  {
    RankOfName(ToDisplayString(Get(x, "type")))
  }

  function Defined(s: seq<Json>): (r: seq<Json>)
    ensures forall i :: 0 <= i < |r| ==> !r[i].Undefined?
    decreases |s|
  {
    if s == [] then []
    else Defined(s[..|s| - 1]) + (if s[|s| - 1].Undefined? then [] else [s[|s| - 1]])
  }

  function Undefineds(s: seq<Json>): (r: seq<Json>)
    ensures forall i :: 0 <= i < |r| ==> r[i].Undefined?
    decreases |s|
  {
    if s == [] then []
    else Undefineds(s[..|s| - 1]) + (if s[|s| - 1].Undefined? then [Undefined] else [])
  }

  /** `data.sort(cmp)`: undefined elements go to the end without being
      compared; every other element is compared at least once when there are
      two or more of them, and reading `.type` of a null throws. */
  function SortByTypes(data: seq<Json>): (r: Result<seq<Json>>)
    ensures r.Err? <==> |Defined(data)| >= 2 && Null in Defined(data)
  {
    var defined := Defined(data);
    if |defined| >= 2 && Null in defined then Err(TypeError)
    else Ok(InsertionSort(defined, Rank) + Undefineds(data))
  }

  // ---------------------------------------------------------------------
  // Permutation.

  lemma {:induction false} SplitUndefined(s: seq<Json>)
    ensures multiset(Defined(s)) + multiset(Undefineds(s)) == multiset(s)
    decreases |s|
  {
    if s != [] {
      var init := s[..|s| - 1];
      SplitUndefined(init);
      assert s == init + [s[|s| - 1]];
    }
  }

  /** Sorting only reorders: the result holds exactly the input's elements. */
  lemma SortPermutes(data: seq<Json>)
    requires SortByTypes(data).Ok?
    ensures multiset(SortByTypes(data).value) == multiset(data)
    ensures |SortByTypes(data).value| == |data|
  {
    SplitUndefined(data);
    InsertionSortPermutes(Defined(data), Rank);
    assert |multiset(SortByTypes(data).value)| == |multiset(data)|;
  }

  /** Null and undefined have no type, hence no rank. */
  lemma NoRankWithoutType()
    ensures Rank(Null) == None && Rank(Undefined) == None
  {
    assert ToDisplayString(Undefined) == "undefined";
  }

  lemma {:induction false} AllDefined(s: seq<Json>)
    requires forall i :: 0 <= i < |s| ==> !s[i].Undefined?
    ensures Defined(s) == s && Undefineds(s) == []
    decreases |s|
  {
    if s != [] {
      AllDefined(s[..|s| - 1]);
      assert s == s[..|s| - 1] + [s[|s| - 1]];
    }
  }

  /** Ranked configs are neither null nor undefined. */
  lemma RankedDefined(s: seq<Json>)
    requires AllRanked(s, Rank)
    ensures Defined(s) == s && Undefineds(s) == [] && Null !in s
  {
    NoRankWithoutType();
    AllDefined(s);
  }

  /** `sortByTypes` on configs whose types are all in the table never
      throws, orders them by type and keeps the input order within a type. */
  lemma SortByTypesOrders(data: seq<Json>)
    requires AllRanked(data, Rank)
    ensures SortByTypes(data).Ok?
    ensures Sorted(SortByTypes(data).value, Rank)
    ensures forall k :: OfRank(SortByTypes(data).value, k, Rank) == OfRank(data, k, Rank)
  {
    RankedDefined(data);
    var r := InsertionSort(data, Rank);
    assert SortByTypes(data).value == r + [];
    assert r + [] == r;
    SortSorted(data, Rank);
    forall k
      ensures OfRank(r, k, Rank) == OfRank(data, k, Rank)
    {
      SortStable(data, k, Rank);
    }
  }

  /** Example: a workflow listed before an app is moved after it. */
  lemma AppBeforeWorkflow(w: Json, a: Json)
    requires Rank(w) == Some(1) && Rank(a) == Some(0)
    ensures SortByTypes([w, a]) == Ok([a, w])
  {
    var s := [w, a];
    assert AllRanked(s, Rank);
    RankedDefined(s);
    SwapTwo(w, a, Rank);
    assert [a, w] + [] == [a, w];
  }
}
