/** `collect_envs` of the deployment helpers (a Python script): every
    service's `environment` list of dictionaries, and then the web
    service's, is merged with `dict.update` into one module-level
    dictionary, which is returned with its keys sorted.

    Python values are JSON values here, with `None` as `Null`; a
    dictionary is an `Obj` whose members have distinct keys, read with
    `Get` and written with `SetMember`, which keeps insertion order and
    overwrites in place as a Python dictionary does. Reading the YAML
    files is a parameter. */
module EnvMerge {
  import opened Wrappers
  import opened Js
  import ConfigUtils

  const KeyError := "KeyError"
  const PyTypeError := "TypeError"
  const PyValueError := "ValueError"

  // ---------------------------------------------------------------------
  // Ordering of keys: Python compares strings by code point.

  predicate StrLess(a: string, b: string)
    decreases |a|
  {
    if a == [] then b != []
    else if b == [] then false
    else if a[0] != b[0] then a[0] < b[0]
    else StrLess(a[1..], b[1..])
  }

  lemma {:induction false} StrLessIrreflexive(a: string)
    ensures !StrLess(a, a)
    decreases |a|
  {
    if a != [] {
      StrLessIrreflexive(a[1..]);
    }
  }

  lemma {:induction false} StrLessTotal(a: string, b: string)
    requires a != b
    ensures StrLess(a, b) || StrLess(b, a)
    decreases |a|
  {
    if a != [] && b != [] && a[0] == b[0] {
      assert a == [a[0]] + a[1..] && b == [b[0]] + b[1..];
      StrLessTotal(a[1..], b[1..]);
    }
  }

  lemma {:induction false} StrLessAsymmetric(a: string, b: string)
    requires StrLess(a, b)
    ensures !StrLess(b, a)
    decreases |a|
  {
    if a != [] && b != [] && a[0] == b[0] {
      StrLessAsymmetric(a[1..], b[1..]);
    }
  }

  lemma {:induction false} StrLessTransitive(a: string, b: string, c: string)
    requires StrLess(a, b) && StrLess(b, c)
    ensures StrLess(a, c)
    decreases |a|
  {
    if a != [] && a[0] == b[0] && b[0] == c[0] {
      StrLessTransitive(a[1..], b[1..], c[1..]);
    }
  }

  // ---------------------------------------------------------------------
  // sorted(d.items()) rebuilt into a dictionary.

  function KeySet(ms: seq<Member>): set<string> {
    set m | m in ms :: m.key
  }

  predicate KeysAscending(ms: seq<Member>) {
    forall i, j :: 0 <= i < j < |ms| ==> StrLess(ms[i].key, ms[j].key)
  }

  function InsertByKey(ss: seq<Member>, m: Member): (r: seq<Member>)
    ensures |r| == |ss| + 1
    decreases |ss|
  {
    if ss == [] then [m]
    else if StrLess(m.key, ss[0].key) then [m] + ss
    else [ss[0]] + InsertByKey(ss[1..], m)
  }

  function SortByKey(ms: seq<Member>): (r: seq<Member>)
    ensures |r| == |ms|
    decreases |ms|
  {
    if ms == [] then [] else InsertByKey(SortByKey(ms[1..]), ms[0])
  }

  lemma {:induction false} InsertKeys(ss: seq<Member>, m: Member)
    ensures KeySet(InsertByKey(ss, m)) == KeySet(ss) + {m.key}
    decreases |ss|
  {
    if ss != [] && !StrLess(m.key, ss[0].key) {
      InsertKeys(ss[1..], m);
      assert ss == [ss[0]] + ss[1..];
      assert KeySet(ss) == {ss[0].key} + KeySet(ss[1..]);
      assert KeySet([ss[0]] + InsertByKey(ss[1..], m)) == {ss[0].key} + KeySet(InsertByKey(ss[1..], m));
    } else if ss != [] {
      assert KeySet([m] + ss) == {m.key} + KeySet(ss);
    }
  }

  lemma {:induction false} SortKeys(ms: seq<Member>)
    ensures KeySet(SortByKey(ms)) == KeySet(ms)
    decreases |ms|
  {
    if ms != [] {
      SortKeys(ms[1..]);
      InsertKeys(SortByKey(ms[1..]), ms[0]);
      assert ms == [ms[0]] + ms[1..];
      KeySetCons(ms[0], ms[1..]);
    }
  }

  lemma KeySetCons(m: Member, ss: seq<Member>)
    ensures KeySet([m] + ss) == {m.key} + KeySet(ss)
  {
    assert forall x :: x in [m] + ss <==> x == m || x in ss;
  }

  lemma {:induction false} InsertAscending(ss: seq<Member>, m: Member)
    requires KeysAscending(ss) && m.key !in KeySet(ss)
    ensures KeysAscending(InsertByKey(ss, m))
    decreases |ss|
  {
    if ss == [] {
    } else if StrLess(m.key, ss[0].key) {
      forall j | 0 <= j < |ss| ensures StrLess(m.key, ss[j].key) {
        if j > 0 {
          StrLessTransitive(m.key, ss[0].key, ss[j].key);
        }
      }
      ConsAscending(m, ss);
    } else {
      assert ss[0] in ss;
      StrLessTotal(m.key, ss[0].key);
      assert KeySet(ss[1..]) <= KeySet(ss) by {
        forall x | x in ss[1..] ensures x in ss { }
      }
      InsertAscending(ss[1..], m);
      InsertKeys(ss[1..], m);
      var tail := InsertByKey(ss[1..], m);
      forall j | 0 <= j < |tail| ensures StrLess(ss[0].key, tail[j].key) {
        HeadBelowKey(ss, m, tail[j]);
      }
      ConsAscending(ss[0], tail);
    }
  }

  /** A key of the insertion result other than the head's lies above it. */
  lemma HeadBelowKey(ss: seq<Member>, m: Member, x: Member)
    requires KeysAscending(ss) && ss != [] && StrLess(ss[0].key, m.key)
    requires x.key in KeySet(ss[1..]) + {m.key}
    ensures StrLess(ss[0].key, x.key)
  {
    if x.key != m.key {
      var y :| y in ss[1..] && y.key == x.key;
      var n :| 0 <= n < |ss[1..]| && ss[1..][n] == y;
      assert ss[n + 1] == y;
    }
  }

  /** A head below every key of an ascending tail keeps the keys ascending. */
  lemma ConsAscending(x: Member, tail: seq<Member>)
    requires KeysAscending(tail)
    requires forall j :: 0 <= j < |tail| ==> StrLess(x.key, tail[j].key)
    ensures KeysAscending([x] + tail)
  {
    var r := [x] + tail;
    forall i, j | 0 <= i < j < |r| ensures StrLess(r[i].key, r[j].key) {
      assert r[j] == tail[j - 1];
      if i > 0 {
        assert r[i] == tail[i - 1];
      }
    }
  }

  lemma GetCons(x: Member, rest: seq<Member>, k: string)
    ensures Get(Obj([x] + rest), k) == if x.key == k then x.value else Get(Obj(rest), k)
  {
    var ms := [x] + rest;
    assert ms[0] == x && ms[1..] == rest;
  }

  lemma {:induction false} InsertGet(ss: seq<Member>, m: Member, k: string)
    requires m.key !in KeySet(ss)
    ensures Get(Obj(InsertByKey(ss, m)), k) == if k == m.key then m.value else Get(Obj(ss), k)
    decreases |ss|
  {
    if ss == [] {
      GetSingle(m, k);
    } else if StrLess(m.key, ss[0].key) {
      GetCons(m, ss, k);
    } else {
      assert ss[0] in ss;
      assert KeySet(ss[1..]) <= KeySet(ss) by {
        forall x | x in ss[1..] ensures x in ss { }
      }
      InsertGet(ss[1..], m, k);
      GetCons(ss[0], InsertByKey(ss[1..], m), k);
      GetCons(ss[0], ss[1..], k);
      assert ss == [ss[0]] + ss[1..];
    }
  }

  /** The sorted dictionary has the same keys, in ascending order, and
      the same value under every key. */
  lemma {:induction false} SortByKeyDictionary(ms: seq<Member>, k: string)
    requires DistinctKeys(ms)
    ensures KeysAscending(SortByKey(ms))
    ensures KeySet(SortByKey(ms)) == KeySet(ms)
    ensures Get(Obj(SortByKey(ms)), k) == Get(Obj(ms), k)
    decreases |ms|
  {
    SortKeys(ms);
    if ms != [] {
      var rest := ms[1..];
      assert DistinctKeys(rest) by {
        forall i, j | 0 <= i < j < |rest| ensures rest[i].key != rest[j].key {
          assert rest[i] == ms[i + 1] && rest[j] == ms[j + 1];
        }
      }
      SortByKeyDictionary(rest, k);
      forall y | y in rest ensures y.key != ms[0].key {
        var n :| 0 <= n < |rest| && rest[n] == y;
        assert ms[n + 1] == y;
      }
      InsertAscending(SortByKey(rest), ms[0]);
      InsertGet(SortByKey(rest), ms[0], k);
      GetCons(ms[0], rest, k);
      assert ms == [ms[0]] + rest;
    }
  }

  // ---------------------------------------------------------------------
  // dict.update

  lemma SetMemberDistinct(ms: seq<Member>, k: string, v: Json)
    requires DistinctKeys(ms)
    ensures DistinctKeys(SetMember(ms, k, v))
  {
    var r := SetMember(ms, k, v);
    assert MemberKeys(r) == if FindMember(ms, k).Some? then MemberKeys(ms) else MemberKeys(ms) + [k];
    forall i, j | 0 <= i < j < |r| ensures r[i].key != r[j].key {
      assert r[i].key == MemberKeys(r)[i] && r[j].key == MemberKeys(r)[j];
      if FindMember(ms, k).None? && j == |ms| {
        assert MemberKeys(r)[i] == MemberKeys(ms)[i] == ms[i].key;
      } else {
        assert MemberKeys(r)[i] == MemberKeys(ms)[i] && MemberKeys(r)[j] == MemberKeys(ms)[j];
      }
    }
  }

  lemma {:induction false} AssignAllDistinct(ms: seq<Member>, es: seq<Member>)
    requires DistinctKeys(ms)
    ensures DistinctKeys(AssignAll(ms, es))
    decreases |es|
  {
    if es != [] {
      SetMemberDistinct(ms, es[0].key, es[0].value);
      AssignAllDistinct(SetMember(ms, es[0].key, es[0].value), es[1..]);
    }
  }

  lemma {:induction false} AssignAllAppend(ms: seq<Member>, a: seq<Member>, b: seq<Member>)
    ensures AssignAll(ms, a + b) == AssignAll(AssignAll(ms, a), b)
    decreases |a|
  {
    if a == [] {
      assert a + b == b;
    } else {
      assert (a + b)[0] == a[0] && (a + b)[1..] == a[1..] + b;
      AssignAllAppend(SetMember(ms, a[0].key, a[0].value), a[1..], b);
    }
  }

  /** A key already in the dictionary stays in it. */
  lemma {:induction false} AssignAllKeepsKeys(ms: seq<Member>, es: seq<Member>)
    ensures KeySet(ms) <= KeySet(AssignAll(ms, es))
    decreases |es|
  {
    if es != [] {
      var ms' := SetMember(ms, es[0].key, es[0].value);
      assert KeySet(ms) <= KeySet(ms') by {
        forall x | x in ms ensures x.key in KeySet(ms') {
          var i :| 0 <= i < |ms| && ms[i] == x;
          assert MemberKeys(ms)[i] == x.key;
          assert MemberKeys(ms') == if FindMember(ms, es[0].key).Some? then MemberKeys(ms) else MemberKeys(ms) + [es[0].key];
          assert ms'[i].key == MemberKeys(ms')[i];
          assert ms'[i] in ms';
        }
      }
      AssignAllKeepsKeys(ms', es[1..]);
    }
  }

  /** `for var in vars: d.update(var)` */
  function UpdateEach(acc: seq<Member>, vars: seq<seq<Member>>): seq<Member>
    decreases |vars|
  {
    if vars == [] then acc else UpdateEach(AssignAll(acc, vars[0]), vars[1..])
  }

  /** All the updates' entries, one after the other. */
  function Flat(vars: seq<seq<Member>>): seq<Member>
    decreases |vars|
  {
    if vars == [] then [] else vars[0] + Flat(vars[1..])
  }

  /** Updating with each dictionary in turn is one update with all their
      entries in order. */
  lemma {:induction false} UpdateEachFlat(acc: seq<Member>, vars: seq<seq<Member>>)
    ensures UpdateEach(acc, vars) == AssignAll(acc, Flat(vars))
    decreases |vars|
  {
    if vars != [] {
      UpdateEachFlat(AssignAll(acc, vars[0]), vars[1..]);
      AssignAllAppend(acc, vars[0], Flat(vars[1..]));
    }
  }

  lemma {:induction false} FlatAppend(a: seq<seq<Member>>, b: seq<seq<Member>>)
    ensures Flat(a + b) == Flat(a) + Flat(b)
    decreases |a|
  {
    if a == [] {
      assert a + b == b;
    } else {
      assert (a + b)[0] == a[0] && (a + b)[1..] == a[1..] + b;
      FlatAppend(a[1..], b);
    }
  }

  // ---------------------------------------------------------------------
  // collect_envs

  /** `d[k]` on a parsed YAML value. */
  function Index(d: Json, k: string): Result<Json> {
    if !d.Obj? then Err(PyTypeError)
    else if FindMember(d.members, k).None? then Err(KeyError)
    else Ok(Get(d, k))
  }

  /** `load_src_yaml(dir, id)`, a parameter. */
  datatype Source = Source(dir: string, id: string)

  /** The services in order, then the web service. */
  function Sources(dir: string, srcs: seq<string>): (r: seq<Source>)
    ensures |r| == |srcs| + 1 && r[|srcs|] == Source("None", "web")
  {
    seq(|srcs|, i requires 0 <= i < |srcs| => Source(dir, srcs[i])) + [Source("None", "web")]
  }

  /** The elements `for var in loaded_yaml` visits: a list's items, a
      mapping's keys, a string's characters; anything else is not iterable. */
  function Iterated(x: Json): (r: Result<seq<Json>>)
    ensures x.Arr? ==> r == Ok(x.items)
    ensures r.Ok? <==> x.Arr? || x.Obj? || x.Str?
    ensures r.Ok? ==> |r.value| == match x case Obj(ms) => |ms| case Str(t) => |t| case Arr(items) => |items| case _ => 0
  {
    match x
    case Arr(items) => Ok(items)
    case Obj(ms) => Ok(seq(|ms|, i requires 0 <= i < |ms| => Str(ms[i].key)))
    case Str(t) => Ok(seq(|t|, i requires 0 <= i < |t| => Str([t[i]])))
    case _ => Err(PyTypeError)
  }

  /** One element of the sequence `dict.update` is given: an iterable of
      exactly two items, the first of them the key. */
  function Pair(x: Json): (r: Result<Member>)
    ensures x.Arr? && |x.items| == 2 && x.items[0].Str? ==> r == Ok(Member(x.items[0].s, x.items[1]))
    ensures Iterated(x).Ok? && |Iterated(x).value| != 2 ==> r == Err(PyValueError)
    ensures Iterated(x).Err? ==> r == Err(PyTypeError)
  {
    match Iterated(x)
    case Err(_) => Err(PyTypeError)
    case Ok(two) =>
      if |two| != 2 then Err(PyValueError)
      else if two[0].Str? then Ok(Member(two[0].s, two[1]))
      else Err(PyTypeError)
  }

  /** `dict.update(x)`: a mapping writes its entries; any other iterable
      writes its pairs one at a time, so the pairs before the first element
      that is not a pair are written before the error. */
  function UpdateEntries(x: Json): (r: (seq<Member>, Option<string>))
    ensures x.Obj? ==> r == (x.members, None)
    ensures x.Str? ==> r == ([], if x.s == [] then None else Some(PyValueError))
    ensures !x.Obj? && !x.Arr? && !x.Str? ==> r == ([], Some(PyTypeError))
    ensures x.Arr? ==> r == Pairs(x.items)
  {
    if x.Obj? then (x.members, None)
    else if x.Arr? then Pairs(x.items)
    else if x.Str? then Pairs(Iterated(x).value)
    else ([], Some(PyTypeError))
  }

  /** The pairs written before the first element that is not one, and that
      element's error. */
  function Pairs(xs: seq<Json>): (r: (seq<Member>, Option<string>))
    ensures r.1.None? <==> forall i :: 0 <= i < |xs| ==> Pair(xs[i]).Ok?
    ensures |r.0| <= |xs|
    ensures forall i :: 0 <= i < |r.0| ==> Pair(xs[i]) == Ok(r.0[i])
    ensures r.1.Some? ==> |r.0| < |xs| && Pair(xs[|r.0|]) == Err(r.1.value)
    decreases |xs|
  {
    if xs == [] then ([], None)
    else
      match Pair(xs[0])
      case Err(e) => ([], Some(e))
      case Ok(m) =>
        var rest := Pairs(xs[1..]);
        assert forall i :: 1 <= i < |xs| ==> xs[i] == xs[1..][i - 1];
        ([m] + rest.0, rest.1)
  }

  /** `yaml[env]['environment']`, iterated: `None` contributes nothing. */
  function EnvVars(doc: Json, env: string): (r: Result<seq<Json>>)
    ensures r.Ok? ==> doc.Obj? && Get(doc, env).Obj?
  {
    var e :- Index(doc, env);
    var vars :- Index(e, "environment");
    if vars.Null? then Ok([]) else Iterated(vars)
  }

  /** `for var in vars: d.update(var)`, one update at a time: what an update
      wrote before its error stays, and the loop ends there. */
  function UpdateAll(acc: seq<Member>, vars: seq<Json>): (seq<Member>, Option<string>)
    decreases |vars|
  {
    if vars == [] then (acc, None)
    else
      var (es, err) := UpdateEntries(vars[0]);
      if err.Some? then (AssignAll(acc, es), err)
      else UpdateAll(AssignAll(acc, es), vars[1..])
  }

  /** The dictionary after the sources, and the first error if any: the
      updates made before the error stay in the module-level dictionary. */
  function CollectFrom(acc: seq<Member>, sources: seq<Source>, load: Source -> Result<Json>, env: string): (seq<Member>, Option<string>)
    decreases |sources|
  {
    if sources == [] then (acc, None)
    else
      match load(sources[0])
      case Err(e) => (acc, Some(e))
      case Ok(doc) =>
        match EnvVars(doc, env)
        case Err(e) => (acc, Some(e))
        case Ok(vars) =>
          var (acc', err) := UpdateAll(acc, vars);
          if err.Some? then (acc', err) else CollectFrom(acc', sources[1..], load, env)
  }

  /** One call: the module-level dictionary afterwards, and what the call
      returns. */
  datatype Collected = Collected(global: seq<Member>, result: Result<seq<Member>>)

  /** `collect_envs(dir, env_on_yaml, src_list_dir)` starting from the
      module-level dictionary `acc`. */
  function CollectEnvs(acc: seq<Member>, dir: string, env: string, srcs: seq<string>, load: Source -> Result<Json>): Collected {
    var (global, err) := CollectFrom(acc, Sources(dir, srcs), load, env);
    Collected(global, if err.Some? then Err(err.value) else Ok(SortByKey(global)))
  }

  /** The entries one update writes when it succeeds. */
  function Entries(x: Json): Result<seq<Member>> {
    var (es, err) := UpdateEntries(x);
    if err.Some? then Err(err.value) else Ok(es)
  }

  /** Reference: every source's updates, one after the other. */
  function AllVars(sources: seq<Source>, load: Source -> Result<Json>, env: string): Result<seq<seq<Member>>>
    decreases |sources|
  {
    if sources == [] then Ok([])
    else
      var doc :- load(sources[0]);
      var items :- EnvVars(doc, env);
      var vars :- MapResult(items, Entries);
      var rest :- AllVars(sources[1..], load, env);
      Ok(vars + rest)
  }

  // ---------------------------------------------------------------------
  // Properties.

  /** When every update succeeds, the loop is `UpdateEach` over their entries. */
  lemma {:induction false} UpdateAllIsUpdateEach(acc: seq<Member>, items: seq<Json>)
    requires MapResult(items, Entries).Ok?
    ensures UpdateAll(acc, items) == (UpdateEach(acc, MapResult(items, Entries).value), None)
    decreases |items|
  {
    if items != [] {
      var vars := MapResult(items, Entries).value;
      assert Entries(items[0]) == Ok(vars[0]);
      assert MapResult(items[1..], Entries).Ok? && MapResult(items[1..], Entries).value == vars[1..] by {
        assert forall i :: 0 <= i < |items[1..]| ==> items[1..][i] == items[i + 1];
        assert MapResult(items[1..], Entries).Ok?;
        var rest := MapResult(items[1..], Entries).value;
        assert forall i :: 0 <= i < |rest| ==> Ok(rest[i]) == Entries(items[i + 1]) == Ok(vars[i + 1]);
      }
      UpdateAllIsUpdateEach(AssignAll(acc, vars[0]), items[1..]);
    }
  }

  /** A failing update ends the loop with its error. */
  lemma {:induction false} UpdateAllFails(acc: seq<Member>, items: seq<Json>)
    requires MapResult(items, Entries).Err?
    ensures UpdateAll(acc, items).1 == Some(MapResult(items, Entries).error)
    decreases |items|
  {
    if UpdateEntries(items[0]).1.None? {
      UpdateAllFails(AssignAll(acc, UpdateEntries(items[0]).0), items[1..]);
    }
  }

  /** Reading the sources one by one is one update with all their entries. */
  lemma {:induction false} CollectFromIsAssignAll(acc: seq<Member>, sources: seq<Source>, load: Source -> Result<Json>, env: string)
    requires AllVars(sources, load, env).Ok?
    ensures CollectFrom(acc, sources, load, env) == (AssignAll(acc, Flat(AllVars(sources, load, env).value)), None)
    decreases |sources|
  {
    if sources != [] {
      var items := EnvVars(load(sources[0]).value, env).value;
      var vars := MapResult(items, Entries).value;
      var rest := AllVars(sources[1..], load, env).value;
      UpdateAllIsUpdateEach(acc, items);
      CollectFromIsAssignAll(UpdateEach(acc, vars), sources[1..], load, env);
      UpdateEachFlat(acc, vars);
      FlatAppend(vars, rest);
      AssignAllAppend(acc, Flat(vars), Flat(rest));
    }
  }

  /** The first source that fails is the call's error. */
  lemma {:induction false} CollectFromFails(acc: seq<Member>, sources: seq<Source>, load: Source -> Result<Json>, env: string)
    requires AllVars(sources, load, env).Err?
    ensures CollectFrom(acc, sources, load, env).1 == Some(AllVars(sources, load, env).error)
    decreases |sources|
  {
    if sources != [] && load(sources[0]).Ok? && EnvVars(load(sources[0]).value, env).Ok? {
      var items := EnvVars(load(sources[0]).value, env).value;
      if MapResult(items, Entries).Ok? {
        UpdateAllIsUpdateEach(acc, items);
        CollectFromFails(UpdateEach(acc, MapResult(items, Entries).value), sources[1..], load, env);
      } else {
        UpdateAllFails(acc, items);
      }
    }
  }

  /** `environment: [<mapping>, <not iterable>]` in the first service: the
      mapping's variables stay in the module-level dictionary although the
      call raises. */
  lemma EarlierUpdatesStay(acc: seq<Member>, dir: string, env: string, srcs: seq<string>, load: Source -> Result<Json>,
                           doc: Json, ms: seq<Member>, bad: Json)
    requires load(Sources(dir, srcs)[0]) == Ok(doc)
    requires Index(doc, env).Ok? && Index(Index(doc, env).value, "environment") == Ok(Arr([Obj(ms), bad]))
    requires bad.Num? || bad.Bool?
    ensures CollectEnvs(acc, dir, env, srcs, load) == Collected(AssignAll(acc, ms), Err(PyTypeError))
  {
    var items := [Obj(ms), bad];
    assert EnvVars(doc, env) == Ok(items);
    assert items[1..] == [bad];
    assert UpdateAll(acc, items) == (AssignAll(AssignAll(acc, ms), []), Some(PyTypeError));
  }

  /** `dict.update` takes a list of pairs, an empty list and an empty string
      as well as a mapping. */
  lemma UpdateArguments(k: string, v: Json, a: char, b: char)
    ensures UpdateEntries(Arr([Arr([Str(k), v])])) == ([Member(k, v)], None)
    ensures UpdateEntries(Arr([Str([a, b])])) == ([Member([a], Str([b]))], None)
    ensures UpdateEntries(Arr([])) == ([], None) && UpdateEntries(Str("")) == ([], None)
    ensures UpdateEntries(Arr([Arr([Str(k)])])) == ([], Some(PyValueError))
  {
    var pair := Arr([Str(k), v]);
    assert Pair(pair) == Ok(Member(k, v));
    assert [pair][1..] == [] && Pairs([pair][1..]) == ([], None);
    assert [Member(k, v)] + [] == [Member(k, v)];
    assert Pairs([pair]) == ([Member(k, v)], None);
    assert Iterated(Str([a, b])).value == [Str([a]), Str([b])];
    assert Pair(Str([a, b])) == Ok(Member([a], Str([b])));
    assert [Str([a, b])][1..] == [] && Pairs([Str([a, b])][1..]) == ([], None);
    assert [Member([a], Str([b]))] + [] == [Member([a], Str([b]))];
    assert Pairs([Str([a, b])]) == ([Member([a], Str([b]))], None);
  }

  /** The result has its keys in ascending order; each key has the value
      of its last update, in service order with the web service last, or
      else the value the module-level dictionary already held. */
  lemma CollectEnvsLastWins(acc: seq<Member>, dir: string, env: string, srcs: seq<string>, load: Source -> Result<Json>, k: string)
    requires DistinctKeys(acc)
    requires AllVars(Sources(dir, srcs), load, env).Ok?
    ensures var c := CollectEnvs(acc, dir, env, srcs, load);
            var es := Flat(AllVars(Sources(dir, srcs), load, env).value);
            c.result.Ok? && KeysAscending(c.result.value) &&
            Get(Obj(c.result.value), k) == ConfigUtils.LastValue(es, k, Get(Obj(acc), k))
  {
    var es := Flat(AllVars(Sources(dir, srcs), load, env).value);
    CollectFromIsAssignAll(acc, Sources(dir, srcs), load, env);
    AssignAllDistinct(acc, es);
    SortByKeyDictionary(AssignAll(acc, es), k);
    ConfigUtils.GetAssignAll(acc, es, k);
  }

  /** Keys from an earlier call stay in the module-level dictionary and so
      appear in every later result. */
  lemma CollectEnvsKeepsEarlierKeys(acc: seq<Member>, dir: string, env: string, srcs: seq<string>, load: Source -> Result<Json>)
    requires DistinctKeys(acc)
    requires AllVars(Sources(dir, srcs), load, env).Ok?
    ensures var c := CollectEnvs(acc, dir, env, srcs, load);
            c.result.Ok? && KeySet(acc) <= KeySet(c.result.value) && KeySet(acc) <= KeySet(c.global)
  {
    var es := Flat(AllVars(Sources(dir, srcs), load, env).value);
    CollectFromIsAssignAll(acc, Sources(dir, srcs), load, env);
    AssignAllDistinct(acc, es);
    AssignAllKeepsKeys(acc, es);
    SortByKeyDictionary(AssignAll(acc, es), "");
  }

  /** A key the web service sets has the web service's value, whatever the
      other services set. */
  lemma LastValueAppend(a: seq<Member>, b: seq<Member>, k: string, d: Json)
    requires exists i :: 0 <= i < |b| && b[i].key == k
    ensures ConfigUtils.LastValue(a + b, k, d) == ConfigUtils.LastValue(b, k, d)
  {
    var i :| 0 <= i < |b| && b[i].key == k;
    var j := LastIndex(b, k, i);
    ConfigUtils.LastValueIsLast(b, k, d, j);
    assert (a + b)[|a| + j] == b[j];
    ConfigUtils.LastValueIsLast(a + b, k, d, |a| + j);
  }

  function LastIndex(b: seq<Member>, k: string, i: nat): (j: nat)
    requires i < |b| && b[i].key == k
    ensures i <= j < |b| && b[j].key == k
    ensures forall n :: j < n < |b| ==> b[n].key != k
    decreases |b| - i
  {
    if exists n :: i < n < |b| && b[n].key == k then
      var n :| i < n < |b| && b[n].key == k;
      LastIndex(b, k, n)
    else i
  }
}
