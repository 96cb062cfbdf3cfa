/** Pieces the config commands share: the extra list conditions of a config
    document, the duplicate error, and how a read command ends. */
module CommandCommon {
  import opened Wrappers
  import opened Js
  import ConfigUtils

  /** `_getConditionsList(object)` of the apply and delete commands: a
      Translation is also matched on its language. */
  function ExtraConditions(doc: Json): (r: seq<Json>)
    ensures |r| <= 1
  {
    if StrictEquals(Get(doc, "type"), Str("Translation")) then [Arr([Str("lang"), Str("=="), Get(doc, "lang")])]
    else []
  }

  /** The error when more than one stored config matches. */
  function Duplicated(configType: Json): string {
    "found duplicated " + ToDisplayString(configType) + ". please contact support@rele.ai"
  }

  /** How a read command ends when nothing throws: the selected configs are
      printed, or the spinner stops with a message and nothing is printed. */
  datatype Outcome = Printed(items: seq<Json>) | Stopped(message: string)

  /** Only a Translation gets a condition, and it names its `lang`. */
  lemma ExtraConditionsTranslation(doc: Json)
    ensures |ExtraConditions(doc)| == 1 <==> Get(doc, "type") == Str("Translation")
    ensures |ExtraConditions(doc)| == 1 ==> ExtraConditions(doc)[0] == Arr([Str("lang"), Str("=="), Get(doc, "lang")])
    ensures Get(doc, "type") != Str("Translation") ==> ExtraConditions(doc) == []
  {
  }

  /** `{...base, [k]: v}` */
  function Extend(base: Json, k: string, v: Json): Json {
    Obj(AssignAll([], OwnEntries(base) + [Member(k, v)]))
  }

  /** The extended object has `v` under `k` and keeps every other field of
      the base object. */
  lemma ExtendFields(base: Json, k: string, v: Json, other: string)
    requires base.Obj? && DistinctKeys(base.members)
    ensures Get(Extend(base, k, v), k) == v
    ensures other != k ==> Get(Extend(base, k, v), other) == Get(base, other)
  {
    var es := base.members + [Member(k, v)];
    ConfigUtils.GetAssignAll([], es, k);
    ConfigUtils.LastValueIsLast(es, k, Undefined, |base.members|);
    if other != k {
      ConfigUtils.GetAssignAll([], es, other);
      match FindMember(base.members, other)
      case Some(i) =>
        assert es[i] == base.members[i];
        ConfigUtils.LastValueIsLast(es, other, Undefined, i);
      case None =>
        ConfigUtils.LastValueNone(es, other, Undefined);
    }
  }
}
