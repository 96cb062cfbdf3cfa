/** JavaScript values as the command-line client sees them after JSON or YAML
    parsing, with the handful of language operations the core relies on:
    truthiness, `typeof`, property read and write, `Object.keys`, spread,
    `String(v)` and strict equality.

    Objects are insertion-ordered member lists. Numbers are integers. */
module Js {
  import opened Wrappers

  datatype Json =
    | Null
    | Undefined
    | Bool(b: bool)
    | Num(n: int)
    | Str(s: string)
    | Arr(items: seq<Json>)
    | Obj(members: seq<Member>)

  datatype Member = Member(key: string, value: Json)

  /** Nesting depth: primitives are 0, a container is one more than its deepest child. */
  function Depth(j: Json): nat
    decreases j, 1
  {
    match j
    case Arr(items) => 1 + DepthItems(items)
    case Obj(ms) => 1 + DepthMembers(ms)
    case _ => 0
  }

  function DepthItems(items: seq<Json>): nat
    decreases items, 0
  {
    if items == [] then 0
    else Max(Depth(items[0]), DepthItems(items[1..]))
  }

  function DepthMembers(ms: seq<Member>): nat
    decreases ms, 0
  {
    if ms == [] then 0
    else Max(Depth(ms[0].value), DepthMembers(ms[1..]))
  }

  function Max(a: nat, b: nat): nat {
    if a < b then b else a
  }

  lemma {:induction false} ItemDepthBelow(items: seq<Json>, i: nat)
    requires i < |items|
    ensures Depth(items[i]) <= DepthItems(items)
    ensures Depth(items[i]) < Depth(Arr(items))
    decreases i
  {
    if i > 0 {
      ItemDepthBelow(items[1..], i - 1);
      assert items[1..][i - 1] == items[i];
    }
  }

  lemma {:induction false} MemberDepthBelow(ms: seq<Member>, i: nat)
    requires i < |ms|
    ensures Depth(ms[i].value) <= DepthMembers(ms)
    ensures Depth(ms[i].value) < Depth(Obj(ms))
    decreases i
  {
    if i > 0 {
      MemberDepthBelow(ms[1..], i - 1);
      assert ms[1..][i - 1] == ms[i];
    }
  }

  /** No member list repeats a key (a JavaScript object cannot). */
  predicate DistinctKeys(ms: seq<Member>) {
    forall i, j :: 0 <= i < j < |ms| ==> ms[i].key != ms[j].key
  }

  /** A value JSON text can denote: no undefined anywhere and no repeated keys. */
  predicate IsJsonValue(v: Json)
    decreases v
  {
    match v
    case Undefined => false
    case Arr(items) => forall i :: 0 <= i < |items| ==> IsJsonValue(items[i])
    case Obj(ms) => DistinctKeys(ms) && forall i :: 0 <= i < |ms| ==> IsJsonValue(ms[i].value)
    case _ => true
  }

  /** ToBoolean: null, undefined, false, 0 and "" are falsy. */
  predicate Truthy(j: Json) {
    match j
    case Null => false
    case Undefined => false
    case Bool(b) => b
    case Num(n) => n != 0
    case Str(s) => s != ""
    case _ => true
  }

  /** `typeof v === "object"`: true of objects, arrays and also of null. */
  predicate IsObjectType(j: Json) {
    j.Null? || j.Arr? || j.Obj?
  }

  predicate Nullish(j: Json) {
    j.Null? || j.Undefined?
  }

  /** `a || b` */
  function Or(a: Json, b: Json): Json {
    if Truthy(a) then a else b
  }

  /** Every item is shallower than `b`. */
  predicate ItemsBelow(items: seq<Json>, b: int) {
    forall i :: 0 <= i < |items| ==> Depth(items[i]) < b
  }

  /** Every member value is shallower than `b`. */
  predicate MembersBelow(ms: seq<Member>, b: int) {
    forall i :: 0 <= i < |ms| ==> Depth(ms[i].value) < b
  }

  lemma ItemsBelowArr(items: seq<Json>)
    ensures ItemsBelow(items, Depth(Arr(items)))
  {
    forall i | 0 <= i < |items| ensures Depth(items[i]) < Depth(Arr(items)) {
      ItemDepthBelow(items, i);
    }
  }

  lemma MembersBelowObj(ms: seq<Member>)
    ensures MembersBelow(ms, Depth(Obj(ms)))
  {
    forall i | 0 <= i < |ms| ensures Depth(ms[i].value) < Depth(Obj(ms)) {
      MemberDepthBelow(ms, i);
    }
  }

  lemma {:induction false} DepthItemsBound(items: seq<Json>, b: nat)
    requires ItemsBelow(items, b + 1)
    ensures DepthItems(items) <= b
    decreases |items|
  {
    if items != [] {
      DepthItemsBound(items[1..], b);
    }
  }

  lemma {:induction false} DepthMembersBound(ms: seq<Member>, b: nat)
    requires MembersBelow(ms, b + 1)
    ensures DepthMembers(ms) <= b
    decreases |ms|
  {
    if ms != [] {
      DepthMembersBound(ms[1..], b);
    }
  }

  lemma SetMemberBelow(ms: seq<Member>, k: string, v: Json, b: int)
    requires MembersBelow(ms, b) && Depth(v) < b
    ensures MembersBelow(SetMember(ms, k, v), b)
  {
  }

  /** Every entry `for-in` or `Object.entries` produces is no deeper than its source. */
  lemma EntriesDepth(j: Json)
    ensures MembersBelow(OwnEntries(j), Depth(j) + 1)
    ensures j.Obj? || j.Arr? ==> MembersBelow(OwnEntries(j), Depth(j))
  {
    match j
    case Obj(ms) => MembersBelowObj(ms);
    case Arr(items) => ItemsBelowArr(items);
    case _ =>
  }

  // ---------------------------------------------------------------------
  // Decimal text of integers (array indices, `String(n)`).

  function DigitChar(d: nat): char
    requires d < 10
  {
    "0123456789"[d]
  }

  function NatToString(n: nat): (r: string)
    ensures |r| >= 1
    ensures forall i :: 0 <= i < |r| ==> '0' <= r[i] <= '9'
    ensures r[0] == '0' ==> n == 0 && r == "0"
    decreases n
  {
    if n < 10 then [DigitChar(n)] else NatToString(n / 10) + [DigitChar(n % 10)]
  }

  function IntToString(n: int): string {
    if n < 0 then "-" + NatToString(-n) else NatToString(n)
  }

  function DigitValue(c: char): nat
    requires '0' <= c <= '9'
  {
    (c as int - '0' as int) as nat
  }

  function DigitsValue(s: string): nat
    requires forall i :: 0 <= i < |s| ==> '0' <= s[i] <= '9'
    decreases |s|
  {
    if s == [] then 0 else DigitsValue(s[..|s| - 1]) * 10 + DigitValue(s[|s| - 1])
  }

  /** The array index a property key denotes, when it is a canonical index. */
  function ParseIndex(k: string): Option<nat> {
    if |k| >= 1 && (forall i :: 0 <= i < |k| ==> '0' <= k[i] <= '9') && (k[0] != '0' || k == "0")
    then Some(DigitsValue(k))
    else None
  }

  lemma {:induction false} DigitsOfNatToString(n: nat)
    ensures DigitsValue(NatToString(n)) == n
    decreases n
  {
    if n >= 10 {
      DigitsOfNatToString(n / 10);
      var r := NatToString(n);
      assert r[..|r| - 1] == NatToString(n / 10);
    } else {
      assert NatToString(n) == [DigitChar(n)];
      assert DigitsValue(NatToString(n)) == DigitsValue([]) * 10 + DigitValue(DigitChar(n));
    }
  }

  lemma IndexRoundTrip(n: nat)
    ensures ParseIndex(NatToString(n)) == Some(n)
  {
    DigitsOfNatToString(n);
  }

  lemma NatToStringInjective(a: nat, b: nat)
    requires NatToString(a) == NatToString(b)
    ensures a == b
  {
    DigitsOfNatToString(a);
    DigitsOfNatToString(b);
  }

  // ---------------------------------------------------------------------
  // Own properties.

  function IndexKeys(n: nat): (r: seq<string>)
    ensures |r| == n
    ensures forall i :: 0 <= i < n ==> r[i] == NatToString(i)
  {
    seq(n, i requires 0 <= i => NatToString(i))
  }

  function MemberKeys(ms: seq<Member>): (r: seq<string>)
    ensures |r| == |ms|
    ensures forall i :: 0 <= i < |ms| ==> r[i] == ms[i].key
  {
    seq(|ms|, i requires 0 <= i < |ms| => ms[i].key)
  }

  /** `Object.keys(v)` for a value that is not null or undefined (those throw). */
  function OwnKeys(j: Json): seq<string> {
    match j
    case Obj(ms) => MemberKeys(ms)
    case Arr(items) => IndexKeys(|items|)
    case Str(s) => IndexKeys(|s|)
    case _ => []
  }

  /** The own enumerable properties of `v` as `{...v}` and `Object.entries(v)` copy them. */
  function OwnEntries(j: Json): (r: seq<Member>)
    ensures MemberKeys(r) == OwnKeys(j)
  {
    match j
    case Obj(ms) => ms
    case Arr(items) => seq(|items|, i requires 0 <= i < |items| => Member(NatToString(i), items[i]))
    case Str(s) => seq(|s|, i requires 0 <= i < |s| => Member(NatToString(i), Str([s[i]])))
    case _ => []
  }

  function FindMember(ms: seq<Member>, k: string): (r: Option<nat>)
    ensures r.Some? ==> r.value < |ms| && ms[r.value].key == k
    ensures r.Some? ==> forall i :: 0 <= i < r.value ==> ms[i].key != k
    ensures r.None? ==> forall i :: 0 <= i < |ms| ==> ms[i].key != k
    decreases |ms|
  {
    if ms == [] then None
    else if ms[0].key == k then Some(0)
    else match FindMember(ms[1..], k)
      case None => None
      case Some(i) => Some(i + 1)
  }

  /** Property read `v[k]` on a value that is not null or undefined. Built-in
      members such as `length` or prototype methods are not represented. */
  function Lookup(j: Json, k: string): Json {
    match j
    case Obj(ms) =>
      (match FindMember(ms, k)
       case Some(i) => ms[i].value
       case None => Undefined)
    case Arr(items) =>
      (match ParseIndex(k)
       case Some(i) => if i < |items| then items[i] else Undefined
       case None => Undefined)
    case Str(s) =>
      (match ParseIndex(k)
       case Some(i) => if i < |s| then Str([s[i]]) else Undefined
       case None => Undefined)
    case _ => Undefined
  }

  /** Read of a named (non-index) property: an own member of an object, else
      undefined. For every key that is not a canonical array index this is `Lookup`. */
  function Get(j: Json, k: string): (r: Json)
    ensures r.Undefined? || (j.Obj? && Depth(r) < Depth(j))
  {
    match j
    case Obj(ms) =>
      (match FindMember(ms, k)
       case Some(i) => MemberDepthBelow(ms, i); ms[i].value
       case None => Undefined)
    case _ => Undefined
  }

  /** Reading a two-member object literal. */
  lemma GetPair(a: Member, b: Member, k: string)
    ensures Get(Obj([a, b]), k) == if a.key == k then a.value else if b.key == k then b.value else Undefined
  {
    var ms := [a, b];
    if a.key != k {
      assert ms[1..] == [b];
      if b.key == k {
        assert FindMember(ms, k) == Some(1);
      } else {
        assert FindMember(ms, k) == None;
      }
    }
  }

  lemma GetSingle(a: Member, k: string)
    ensures Get(Obj([a]), k) == if a.key == k then a.value else Undefined
  {
  }

  /** Writing the only key of a one-member object replaces its value. */
  lemma SetSingle(a: Member, v: Json)
    ensures SetProp(Obj([a]), a.key, v) == Ok(Obj([Member(a.key, v)]))
  {
    FindMemberFirst([a], a.key, 0);
    assert SetMember([a], a.key, v) == [a][0 := Member(a.key, v)];
    assert [a][0 := Member(a.key, v)] == [Member(a.key, v)];
  }

  lemma GetIsLookup(j: Json, k: string)
    requires ParseIndex(k).None?
    ensures Get(j, k) == Lookup(j, k)
  {
  }

  /** Property read that throws on null and undefined, as `v[k]` does. */
  function Prop(j: Json, k: string): Result<Json> {
    if Nullish(j) then Err(TypeError) else Ok(Lookup(j, k))
  }

  /** `v.k` for a named (non-index) key `k`: null and undefined throw. */
  function Field(v: Json, k: string): (r: Result<Json>)
    ensures r.Ok? <==> !Nullish(v)
  {
    if Nullish(v) then Err(TypeError) else Ok(Get(v, k))
  }

  /** Set `k` in a member list: an existing key keeps its position, a new key is appended. */
  function SetMember(ms: seq<Member>, k: string, v: Json): (r: seq<Member>)
    ensures FindMember(ms, k).Some? ==> |r| == |ms|
    ensures FindMember(ms, k).None? ==> r == ms + [Member(k, v)]
    ensures MemberKeys(r) == if FindMember(ms, k).Some? then MemberKeys(ms) else MemberKeys(ms) + [k]
    ensures forall i :: 0 <= i < |r| ==> r[i] == Member(k, v) || (i < |ms| && r[i] == ms[i])
  {
    match FindMember(ms, k)
    case Some(i) => ms[i := Member(k, v)]
    case None => ms + [Member(k, v)]
  }

  /** `FindMember` is pinned down by its contract: the first member with the key. */
  lemma {:induction false} FindMemberFirst(ms: seq<Member>, k: string, i: nat)
    requires i < |ms| && ms[i].key == k
    requires forall j :: 0 <= j < i ==> ms[j].key != k
    ensures FindMember(ms, k) == Some(i)
  {
    match FindMember(ms, k)
    case None =>
    case Some(f) =>
  }

  /** Reading a key back after writing it yields the written value; other keys are unaffected. */
  lemma LookupAfterSetMember(ms: seq<Member>, k: string, v: Json, k': string)
    ensures Lookup(Obj(SetMember(ms, k, v)), k') == if k' == k then v else Lookup(Obj(ms), k')
  {
    var r := SetMember(ms, k, v);
    match FindMember(ms, k)
    case Some(i) =>
      assert r == ms[i := Member(k, v)];
      if k' == k {
        FindMemberFirst(r, k, i);
      } else {
        match FindMember(ms, k')
        case Some(j) =>
          assert r[j] == ms[j];
          FindMemberFirst(r, k', j);
        case None =>
          assert forall j :: 0 <= j < |r| ==> r[j].key != k';
      }
    case None =>
      assert r == ms + [Member(k, v)];
      if k' == k {
        FindMemberFirst(r, k, |ms|);
      } else {
        match FindMember(ms, k')
        case Some(j) =>
          assert r[j] == ms[j];
          FindMemberFirst(r, k', j);
        case None =>
          assert forall j :: 0 <= j < |r| ==> r[j].key != k';
      }
  }

  /** Property write `v[k] = x`. Null and undefined throw; a primitive ignores the
      write (sloppy-mode scripts); an array accepts in-range indices only. */
  function SetProp(j: Json, k: string, v: Json): (r: Result<Json>)
    ensures r.Ok? <==> !Nullish(j)
    ensures r.Ok? ==> !Nullish(r.value) && (r.value.Obj? <==> j.Obj?)
  {
    match j
    case Null => Err(TypeError)
    case Undefined => Err(TypeError)
    case Obj(ms) => Ok(Obj(SetMember(ms, k, v)))
    case Arr(items) =>
      (match ParseIndex(k)
       case Some(i) => if i < |items| then Ok(Arr(items[i := v])) else Ok(j)
       case None => Ok(j))
    case _ => Ok(j)
  }

  /** Apply `SetMember` for every entry in order: `Object.assign` and object spread. */
  function AssignAll(ms: seq<Member>, entries: seq<Member>): seq<Member>
    decreases |entries|
  {
    if entries == [] then ms
    else AssignAll(SetMember(ms, entries[0].key, entries[0].value), entries[1..])
  }

  /** No key of `acc` occurs in `ms`. */
  predicate KeysDisjoint(acc: seq<Member>, ms: seq<Member>) {
    forall i, j :: 0 <= i < |acc| && 0 <= j < |ms| ==> acc[i].key != ms[j].key
  }

  /** Assigning a key the accumulator does not hold appends it. */
  lemma SetMemberFresh(acc: seq<Member>, k: string, v: Json)
    requires forall i :: 0 <= i < |acc| ==> acc[i].key != k
    ensures SetMember(acc, k, v) == acc + [Member(k, v)]
  {
  }

  /** Moving the head of `ms` into the accumulator keeps the keys apart. */
  lemma KeysDisjointStep(acc: seq<Member>, ms: seq<Member>, m: Member)
    requires DistinctKeys(ms) && KeysDisjoint(acc, ms) && |ms| > 0 && m.key == ms[0].key
    ensures DistinctKeys(ms[1..]) && KeysDisjoint(acc + [m], ms[1..])
    ensures forall i :: 0 <= i < |acc| ==> acc[i].key != m.key
  {
    assert forall j :: 0 <= j < |ms| - 1 ==> ms[1..][j] == ms[j + 1];
    forall i, j | 0 <= i < |acc| + 1 && 0 <= j < |ms| - 1
      ensures (acc + [m])[i].key != ms[1..][j].key
    {
      if i < |acc| {
        assert (acc + [m])[i] == acc[i];
      } else {
        assert (acc + [m])[i] == m;
      }
    }
  }

  /** Assigning members whose keys are distinct and new appends them as they are. */
  lemma {:induction false} AssignAllFresh(acc: seq<Member>, ms: seq<Member>)
    requires DistinctKeys(ms) && KeysDisjoint(acc, ms)
    ensures AssignAll(acc, ms) == acc + ms
    decreases |ms|
  {
    if ms != [] {
      KeysDisjointStep(acc, ms, ms[0]);
      AssignFreshHead(acc, ms);
      AssignAllFresh(acc + [ms[0]], ms[1..]);
      AppendHead(acc, ms);
    }
  }

  lemma AssignFreshHead(acc: seq<Member>, ms: seq<Member>)
    requires ms != [] && forall i :: 0 <= i < |acc| ==> acc[i].key != ms[0].key
    ensures AssignAll(acc, ms) == AssignAll(acc + [ms[0]], ms[1..])
  {
    SetMemberFresh(acc, ms[0].key, ms[0].value);
  }

  lemma AppendHead(acc: seq<Member>, ms: seq<Member>)
    requires ms != []
    ensures acc + [ms[0]] + ms[1..] == acc + ms
  {
    assert ms == [ms[0]] + ms[1..];
  }

  /** `for (const k of Object.keys(v)) v[k] = f(v[k])`, where `f` may throw. */
  function ForEachKey(v: Json, keys: seq<string>, f: Json -> Result<Json>): Result<Json>
    decreases |keys|
  {
    if keys == [] then Ok(v)
    else
      var nv :- f(Lookup(v, keys[0]));
      var v' :- SetProp(v, keys[0], nv);
      ForEachKey(v', keys[1..], f)
  }

  /** The values of `ms` mapped through `f`, keys unchanged; the first failure wins. */
  function MapValues(ms: seq<Member>, f: Json -> Result<Json>): (r: Result<seq<Member>>)
    ensures r.Ok? ==> MemberKeys(r.value) == MemberKeys(ms)
    ensures r.Ok? ==> forall i :: 0 <= i < |ms| ==> f(ms[i].value) == Ok(r.value[i].value)
    ensures r.Ok? <==> forall i :: 0 <= i < |ms| ==> f(ms[i].value).Ok?
    decreases |ms|
  {
    if ms == [] then Ok([])
    else
      match f(ms[0].value)
      case Err(e) => Err(e)
      case Ok(y) =>
        match MapValues(ms[1..], f)
        case Err(e) => Err(e)
        case Ok(ys) =>
          assert forall i :: 1 <= i < |ms| ==> ms[i] == ms[1..][i - 1];
          Ok([Member(ms[0].key, y)] + ys)
  }

  /** The next key of the loop reads the first unprocessed member. */
  lemma LookupBoundary(done: seq<Member>, todo: seq<Member>)
    requires todo != [] && KeysDisjoint(done, todo)
    ensures Lookup(Obj(done + todo), todo[0].key) == todo[0].value
  {
    var all := done + todo;
    assert all[|done|] == todo[0];
    FindMemberFirst(all, todo[0].key, |done|);
  }

  lemma ForEachKeyHead(done: seq<Member>, todo: seq<Member>, f: Json -> Result<Json>)
    requires todo != [] && DistinctKeys(todo) && KeysDisjoint(done, todo)
    ensures ForEachKey(Obj(done + todo), MemberKeys(todo), f)
         == match f(todo[0].value)
            case Err(e) => Err(e)
            case Ok(y) => ForEachKey(Obj(done + [Member(todo[0].key, y)] + todo[1..]), MemberKeys(todo[1..]), f)
  {
    var all := done + todo;
    var k := todo[0].key;
    LookupBoundary(done, todo);
    assert MemberKeys(todo)[1..] == MemberKeys(todo[1..]);
    match f(todo[0].value)
    case Err(e) =>
    case Ok(y) =>
      FindMemberFirst(all, k, |done|);
      assert all[|done| := Member(k, y)] == done + [Member(k, y)] + todo[1..];
  }

  /** Over an object whose keys are distinct, the key loop maps every value in place. */
  lemma {:induction false} ForEachKeyObj(done: seq<Member>, todo: seq<Member>, f: Json -> Result<Json>)
    requires DistinctKeys(todo) && KeysDisjoint(done, todo)
    ensures ForEachKey(Obj(done + todo), MemberKeys(todo), f)
         == match MapValues(todo, f) case Ok(ys) => Ok(Obj(done + ys)) case Err(e) => Err(e)
    decreases |todo|
  {
    if todo == [] {
      assert done + todo == done;
    } else {
      ForEachKeyHead(done, todo, f);
      match f(todo[0].value)
      case Err(e) =>
      case Ok(y) =>
        var m := Member(todo[0].key, y);
        KeysDisjointStep(done, todo, m);
        ForEachKeyObj(done + [m], todo[1..], f);
        match MapValues(todo[1..], f)
        case Err(e) =>
        case Ok(ys) =>
          assert MapValues(todo, f) == Ok([m] + ys);
          ShiftAppend(done, m, ys);
    }
  }

  /** The key loop over a whole object with distinct keys. */
  lemma ForEachKeyMaps(ms: seq<Member>, f: Json -> Result<Json>)
    requires DistinctKeys(ms)
    ensures MapValues(ms, f).Ok? ==> ForEachKey(Obj(ms), OwnKeys(Obj(ms)), f) == Ok(Obj(MapValues(ms, f).value))
    ensures MapValues(ms, f).Err? ==> ForEachKey(Obj(ms), OwnKeys(Obj(ms)), f) == Err(MapValues(ms, f).error)
  {
    assert OwnKeys(Obj(ms)) == MemberKeys(ms);
    var none: seq<Member> := [];
    ForEachKeyObj(none, ms, f);
    assert none + ms == ms;
    if MapValues(ms, f).Ok? {
      assert none + MapValues(ms, f).value == MapValues(ms, f).value;
    }
  }

  lemma ShiftAppend<T>(done: seq<T>, m: T, ys: seq<T>)
    ensures done + [m] + ys == done + ([m] + ys)
  {
  }

  // ---------------------------------------------------------------------
  // Conversions and comparisons.

  /** `String(v)`, the conversion a template literal applies. */
  function ToDisplayString(j: Json): string
    decreases j
  {
    match j
    case Null => "null"
    case Undefined => "undefined"
    case Bool(b) => if b then "true" else "false"
    case Num(n) => IntToString(n)
    case Str(s) => s
    case Arr(items) => JoinItems(items)
    case Obj(_) => "[object Object]"
  }

  /** `Array.prototype.join(",")`: null and undefined elements print as "". */
  function JoinItems(items: seq<Json>): string
    decreases items
  {
    if items == [] then ""
    else
      var head := if Nullish(items[0]) then "" else ToDisplayString(items[0]);
      if |items| == 1 then head else head + "," + JoinItems(items[1..])
  }

  /** The white space `StringToNumber` trims (section 7.1.4.1.1 of
      ECMA-262): the ASCII controls tab to carriage return, the space, and
      the Unicode space separators, line separators and byte order mark. */
  predicate IsStrSpace(c: char) {
    var n := c as int;
    (9 <= n <= 13) || n == 0x20 || n == 0xA0 || n == 0x1680 || (0x2000 <= n <= 0x200A)
    || n == 0x2028 || n == 0x2029 || n == 0x202F || n == 0x205F || n == 0x3000 || n == 0xFEFF
  }

  function TrimStart(s: string): (r: string)
    ensures |r| <= |s|
    ensures |r| > 0 ==> !IsStrSpace(r[0])
    decreases |s|
  {
    if |s| > 0 && IsStrSpace(s[0]) then TrimStart(s[1..]) else s
  }

  function TrimEnd(s: string): (r: string)
    ensures |r| <= |s|
    ensures |r| > 0 ==> !IsStrSpace(r[|r| - 1])
    decreases |s|
  {
    if |s| > 0 && IsStrSpace(s[|s| - 1]) then TrimEnd(s[..|s| - 1]) else s
  }

  predicate AllDigits(s: string) {
    forall i :: 0 <= i < |s| ==> '0' <= s[i] <= '9'
  }

  /** The value of a string in decimal integer notation, with an optional
      sign and surrounding white space; the empty string is 0. `None` is
      NaN. */
  function NumericValue(s: string): (r: Option<int>)
    ensures r == Some(0) <== TrimEnd(TrimStart(s)) == ""
  {
    var t := TrimEnd(TrimStart(s));
    if t == "" then Some(0)
    else
      var negative := t[0] == '-';
      var digits := if t[0] == '-' || t[0] == '+' then t[1..] else t;
      if digits != "" && AllDigits(digits) then
        var v: int := DigitsValue(digits);
        Some(if negative then -v else v)
      else None
  }

  /** ToNumber (section 7.1.4 of ECMA-262) on the values of the model:
      `None` is NaN. Null is 0, booleans are 0 or 1, a string or an array
      is the number its text spells, undefined and objects are NaN. */
  function ToNumber(j: Json): Option<int> {
    match j
    case Null => Some(0)
    case Undefined => None
    case Bool(b) => Some(if b then 1 else 0)
    case Num(n) => Some(n)
    case Str(s) => NumericValue(s)
    case Arr(_) => NumericValue(ToDisplayString(j))
    case Obj(_) => None
  }

  /** `x < n` against a number: NaN compares false. */
  predicate LessThan(x: Json, n: int) {
    ToNumber(x).Some? && ToNumber(x).value < n
  }

  /** `a === b`. Two objects or arrays are equal only when they are the same
      reference, which a tree of values cannot express, so they are unequal. */
  predicate StrictEquals(a: Json, b: Json) {
    match a
    case Null => b.Null?
    case Undefined => b.Undefined?
    case Bool(x) => b.Bool? && b.b == x
    case Num(x) => b.Num? && b.n == x
    case Str(x) => b.Str? && b.s == x
    case _ => false
  }

  /** `xs.includes(v)` (SameValueZero, which agrees with `===` on integers). */
  predicate Includes(xs: seq<Json>, v: Json) {
    exists i :: 0 <= i < |xs| && StrictEquals(xs[i], v)
  }

  predicate IsArray(j: Json) {
    j.Arr?
  }

  /** `versions.constructor !== Array ? [versions] : versions` on a truthy value. */
  function WrapInList(j: Json): seq<Json> {
    if j.Arr? then j.items else [j]
  }

  /** `s.startsWith(p)` */
  predicate StartsWith(s: string, p: string) {
    |p| <= |s| && s[..|p|] == p
  }

  /** `p` occurs in `s` at offset `i`. */
  predicate MatchAt(s: string, p: string, i: int) {
    0 <= i && i + |p| <= |s| && s[i..i + |p|] == p
  }

  /** `s.includes(p)` on strings. */
  predicate Contains(s: string, p: string) {
    exists i :: 0 <= i <= |s| && MatchAt(s, p, i)
  }

  /** The first offset of `p` in `s` at or after `from`. */
  function IndexOfFrom(s: string, p: string, from: nat): (r: Option<nat>)
    requires from <= |s|
    ensures r.Some? ==> from <= r.value && MatchAt(s, p, r.value)
    ensures r.Some? ==> forall i :: from <= i < r.value ==> !MatchAt(s, p, i)
    ensures r.None? ==> forall i :: from <= i ==> !MatchAt(s, p, i)
    decreases |s| - from
  {
    if |s| - from < |p| then None
    else if s[from..from + |p|] == p then Some(from)
    else if from == |s| then None
    else IndexOfFrom(s, p, from + 1)
  }

  /** `s.indexOf(p)`, with `None` for -1. */
  function IndexOf(s: string, p: string): (r: Option<nat>)
    ensures r.Some? <==> Contains(s, p)
    ensures r.Some? ==> MatchAt(s, p, r.value)
    ensures r.Some? ==> forall i :: 0 <= i < r.value ==> !MatchAt(s, p, i)
  {
    IndexOfFrom(s, p, 0)
  }
}
