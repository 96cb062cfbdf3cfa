/** The two `flatten` helpers: packages/cli/src/utils/index.js flattens a
    nested object into dotted keys, src/utils/formatters.js flattens nested
    arrays into one list. */
module Flatten {
  import opened Wrappers
  import opened Js

  // ---------------------------------------------------------------------
  // Nested object to dotted keys.

  /** `flatten(obj, prefix, res)`: walk `Object.entries(obj)`; a value whose
      `typeof` is "object" (null, an array or an object) is walked under the
      key followed by a dot, anything else is written to `res` under the
      joined key. `Object.entries` of null or undefined throws. */
  function FlattenObj(obj: Json, prefix: string, res: seq<Member>): (r: Result<seq<Member>>)
    ensures r.Err? ==> r.error == TypeError
    decreases Depth(obj), 1
  {
    if Nullish(obj) then Err(TypeError)
    else
      EntriesDepth(obj);
      FlattenEntries(OwnEntries(obj), prefix, res, Depth(obj))
  }

  /** Entries whose nested values are shallower than `bound`. */
  predicate NestedBelow(es: seq<Member>, bound: nat) {
    forall i :: 0 <= i < |es| && IsObjectType(es[i].value) ==> Depth(es[i].value) < bound
  }

  /** The `reduce` over the entries, threading the one result object. */
  function FlattenEntries(es: seq<Member>, prefix: string, res: seq<Member>, bound: nat): (r: Result<seq<Member>>)
    requires NestedBelow(es, bound)
    ensures r.Err? ==> r.error == TypeError
    decreases bound, 0, |es|
  {
    if es == [] then Ok(res)
    else
      var k := prefix + es[0].key;
      var v := es[0].value;
      if IsObjectType(v) then
        var r :- FlattenObj(v, k + ".", res);
        FlattenEntries(es[1..], prefix, r, bound)
      else FlattenEntries(es[1..], prefix, SetMember(res, k, v), bound)
  }

  /** No null is reached while walking: the condition under which the walk
      does not throw. */
  predicate NullFree(v: Json)
    decreases v
  {
    match v
    case Null => false
    case Arr(items) => forall i :: 0 <= i < |items| ==> NullFree(items[i])
    case Obj(ms) => forall i :: 0 <= i < |ms| ==> NullFree(ms[i].value)
    case _ => true
  }

  predicate EntriesNullFree(es: seq<Member>) {
    forall i :: 0 <= i < |es| ==> NullFree(es[i].value)
  }

  predicate NoObjectValues(ms: seq<Member>) {
    forall i :: 0 <= i < |ms| ==> !IsObjectType(ms[i].value)
  }

  /** The reference: the leaves of a value in walk order, each under its
      dotted path. */
  function Leaves(v: Json, prefix: string): (r: seq<Member>)
    ensures NoObjectValues(r)
    ensures forall i :: 0 <= i < |r| ==> StartsWith(r[i].key, prefix)
    decreases Depth(v), 1
  {
    EntriesDepth(v);
    LeafEntries(OwnEntries(v), prefix, Depth(v))
  }

  function LeafEntries(es: seq<Member>, prefix: string, bound: nat): (r: seq<Member>)
    requires NestedBelow(es, bound)
    ensures NoObjectValues(r)
    ensures forall i :: 0 <= i < |r| ==> StartsWith(r[i].key, prefix)
    decreases bound, 0, |es|
  {
    if es == [] then []
    else
      var k := prefix + es[0].key;
      var v := es[0].value;
      var here := if IsObjectType(v) then Leaves(v, k + ".") else [Member(k, v)];
      assert forall i :: 0 <= i < |here| ==> StartsWith(here[i].key, prefix) by {
        forall i | 0 <= i < |here|
          ensures StartsWith(here[i].key, prefix)
        {
          PrefixTransitive(prefix, k, here[i].key);
        }
      }
      here + LeafEntries(es[1..], prefix, bound)
  }

  lemma PrefixTransitive(p: string, k: string, s: string)
    requires StartsWith(k, p) && (StartsWith(s, k + ".") || s == k)
    ensures StartsWith(s, p)
  {
    if s != k {
      assert s[..|k|] == (k + ".")[..|k|] == k;
    }
  }

  lemma {:induction false} AssignAllAppend(ms: seq<Member>, a: seq<Member>, b: seq<Member>)
    ensures AssignAll(ms, a + b) == AssignAll(AssignAll(ms, a), b)
    decreases |a|
  {
    if a == [] {
      assert a + b == b;
    } else {
      assert (a + b)[1..] == a[1..] + b;
      AssignAllAppend(SetMember(ms, a[0].key, a[0].value), a[1..], b);
    }
  }

  /** The walk writes exactly the leaves, in order, and throws exactly when a
      null is reached (or the value itself is null or undefined). */
  lemma {:induction false} FlattenIsLeaves(obj: Json, prefix: string, res: seq<Member>)
    ensures FlattenObj(obj, prefix, res)
         == if Nullish(obj) || !NullFree(obj) then Err(TypeError) else Ok(AssignAll(res, Leaves(obj, prefix)))
    decreases Depth(obj), 1
  {
    if !Nullish(obj) {
      EntriesDepth(obj);
      FlattenEntriesIsLeaves(OwnEntries(obj), prefix, res, Depth(obj));
      NullFreeEntries(obj);
    }
  }

  lemma NullFreeEntries(v: Json)
    requires !v.Null?
    ensures NullFree(v) <==> EntriesNullFree(OwnEntries(v))
  {
    match v
    case Arr(items) =>
      assert forall i :: 0 <= i < |items| ==> OwnEntries(v)[i].value == items[i];
    case Str(s) =>
      assert forall i :: 0 <= i < |s| ==> OwnEntries(v)[i].value == Str([s[i]]);
    case _ =>
  }

  lemma {:induction false} FlattenEntriesIsLeaves(es: seq<Member>, prefix: string, res: seq<Member>, bound: nat)
    requires NestedBelow(es, bound)
    ensures FlattenEntries(es, prefix, res, bound)
         == if EntriesNullFree(es) then Ok(AssignAll(res, LeafEntries(es, prefix, bound))) else Err(TypeError)
    decreases bound, 0, |es|
  {
    if es != [] {
      var k := prefix + es[0].key;
      var v := es[0].value;
      var rest := es[1..];
      assert NestedBelow(rest, bound);
      assert EntriesNullFree(es) <==> NullFree(v) && EntriesNullFree(rest) by {
        assert forall i :: 0 <= i < |rest| ==> rest[i] == es[i + 1];
      }
      if IsObjectType(v) {
        FlattenIsLeaves(v, k + ".", res);
        if NullFree(v) {
          var r := AssignAll(res, Leaves(v, k + "."));
          FlattenEntriesIsLeaves(rest, prefix, r, bound);
          AssignAllAppend(res, Leaves(v, k + "."), LeafEntries(rest, prefix, bound));
        }
      } else {
        FlattenEntriesIsLeaves(rest, prefix, SetMember(res, k, v), bound);
        AssignAllAppend(res, [Member(k, v)], LeafEntries(rest, prefix, bound));
      }
    }
  }

  /** Flattening from an empty result yields distinct keys and no nested values. */
  lemma FlattenIsFlat(obj: Json)
    requires FlattenObj(obj, "", []).Ok?
    ensures DistinctKeys(FlattenObj(obj, "", []).value)
    ensures NoObjectValues(FlattenObj(obj, "", []).value)
  {
    FlattenIsLeaves(obj, "", []);
    AssignAllKeeps([], Leaves(obj, ""));
  }

  lemma {:induction false} AssignAllKeeps(ms: seq<Member>, es: seq<Member>)
    requires DistinctKeys(ms) && NoObjectValues(ms) && NoObjectValues(es)
    ensures DistinctKeys(AssignAll(ms, es)) && NoObjectValues(AssignAll(ms, es))
    decreases |es|
  {
    if es != [] {
      SetMemberKeeps(ms, es[0].key, es[0].value);
      AssignAllKeeps(SetMember(ms, es[0].key, es[0].value), es[1..]);
    }
  }

  lemma SetMemberKeeps(ms: seq<Member>, k: string, v: Json)
    requires DistinctKeys(ms) && NoObjectValues(ms) && !IsObjectType(v)
    ensures DistinctKeys(SetMember(ms, k, v)) && NoObjectValues(SetMember(ms, k, v))
  {
    var r := SetMember(ms, k, v);
    match FindMember(ms, k)
    case Some(i) =>
      assert forall j :: 0 <= j < |r| ==> r[j].key == ms[j].key;
    case None =>
      assert forall j :: 0 <= j < |ms| ==> ms[j].key != k;
  }

  /** An object already flat is its own flattening. */
  lemma FlatObjectUnchanged(ms: seq<Member>)
    requires DistinctKeys(ms) && NoObjectValues(ms)
    ensures FlattenObj(Obj(ms), "", []) == Ok(ms)
  {
    FlattenIsLeaves(Obj(ms), "", []);
    ShallowObjectLeaves(ms);
    AssignAllFresh([], ms);
    assert [] + ms == ms;
  }

  lemma ShallowObjectLeaves(ms: seq<Member>)
    requires NoObjectValues(ms)
    ensures Leaves(Obj(ms), "") == ms
  {
    var d := Depth(Obj(ms));
    ShallowLeaves(ms, d);
    assert OwnEntries(Obj(ms)) == ms;
  }

  lemma {:induction false} ShallowLeaves(ms: seq<Member>, bound: nat)
    requires NoObjectValues(ms)
    ensures NestedBelow(ms, bound) && LeafEntries(ms, "", bound) == ms
    decreases |ms|
  {
    if ms != [] {
      ShallowLeaves(ms[1..], bound);
      assert "" + ms[0].key == ms[0].key;
    }
  }

  lemma {:induction false} AssignAllFresh(acc: seq<Member>, ms: seq<Member>)
    requires DistinctKeys(ms) && KeysDisjoint(acc, ms)
    ensures AssignAll(acc, ms) == acc + ms
    decreases |ms|
  {
    if ms != [] {
      KeysDisjointStep(acc, ms, ms[0]);
      SetMemberFresh(acc, ms[0].key, ms[0].value);
      AssignAllFresh(acc + [ms[0]], ms[1..]);
      assert acc + [ms[0]] + ms[1..] == acc + ms;
    }
  }

  /** Flattening is idempotent. */
  lemma FlattenIdempotent(obj: Json)
    requires FlattenObj(obj, "", []).Ok?
    ensures FlattenObj(Obj(FlattenObj(obj, "", []).value), "", []) == FlattenObj(obj, "", [])
  {
    FlattenIsFlat(obj);
    FlatObjectUnchanged(FlattenObj(obj, "", []).value);
  }

  // ---------------------------------------------------------------------
  // Nested arrays to one list.

  /** The reference: the non-array leaves of a list, left to right. */
  function FlatItems(items: seq<Json>): (r: seq<Json>)
    ensures forall i :: 0 <= i < |r| ==> !r[i].Arr?
    decreases items, 0
  {
    if items == [] then [] else FlatValue(items[0]) + FlatItems(items[1..])
  }

  function FlatValue(v: Json): (r: seq<Json>)
    ensures forall i :: 0 <= i < |r| ==> !r[i].Arr?
    decreases v, 1
  {
    if v.Arr? then FlatItems(v.items) else [v]
  }

  lemma {:induction false} FlatAppend(a: seq<Json>, b: seq<Json>)
    ensures FlatItems(a + b) == FlatItems(a) + FlatItems(b)
    decreases |a|
  {
    if a == [] {
      assert a + b == b;
    } else {
      assert (a + b)[1..] == a[1..] + b;
      FlatAppend(a[1..], b);
    }
  }

  /** `flatten(arr)`: `arr.reduce((flat, x) => flat.concat(Array.isArray(x) ? flatten(x) : x), [])`. */
  method FlattenArray(arr: seq<Json>) returns (flat: seq<Json>)
    ensures flat == FlatItems(arr)
    decreases arr
  {
    flat := [];
    var i := 0;
    while i < |arr|
      invariant i <= |arr|
      invariant flat == FlatItems(arr[..i])
    {
      var x := arr[i];
      var piece;
      if x.Arr? {
        piece := FlattenArray(x.items);
      } else {
        piece := [x];
      }
      FlatAppend(arr[..i], [x]);
      assert [x][1..] == [];
      assert arr[..i + 1] == arr[..i] + [x];
      flat := flat + piece;
      i := i + 1;
    }
    assert arr[..i] == arr;
  }

  /** A list with no nested arrays is its own flattening. */
  lemma {:induction false} FlatUnchanged(items: seq<Json>)
    requires forall i :: 0 <= i < |items| ==> !items[i].Arr?
    ensures FlatItems(items) == items
    decreases |items|
  {
    if items != [] {
      FlatUnchanged(items[1..]);
    }
  }

  /** Flattening is idempotent. */
  lemma FlatIdempotent(items: seq<Json>)
    ensures FlatItems(FlatItems(items)) == FlatItems(items)
  {
    FlatUnchanged(FlatItems(items));
  }

  /** A non-array item survives as itself, between the flattenings of
      what precedes and what follows it. */
  lemma FlatKeepsLeaf(pre: seq<Json>, x: Json, rest: seq<Json>)
    requires !x.Arr?
    ensures FlatItems(pre + [x] + rest) == FlatItems(pre) + [x] + FlatItems(rest)
  {
    assert pre + [x] + rest == pre + ([x] + rest);
    FlatAppend(pre, [x] + rest);
    FlatCons(x, rest);
  }

  lemma FlatCons(x: Json, rest: seq<Json>)
    requires !x.Arr?
    ensures FlatItems([x] + rest) == [x] + FlatItems(rest)
  {
    assert ([x] + rest)[0] == x && ([x] + rest)[1..] == rest;
  }
}
