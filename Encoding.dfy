/** The helper encoders use so that they never write a null, an empty
    array or an empty dictionary into a document. */
module Encoding {
  import opened Wrappers
  import opened Json

  /** An empty array or an empty dictionary. */
  predicate IsEmptyCollection(v: JValue) {
    v == JArray([]) || v == JObject(map[])
  }

  /** The inner `filterOut`: an empty array or dictionary becomes nil;
      everything else, nil included, passes through unchanged. */
  function FilterOut(x: Option<JValue>): (r: Option<JValue>)
    ensures r.None? <==> x.None? || IsEmptyCollection(x.value)
    ensures r.Some? ==> r == x
  {
    match x
    case Some(JArray(items)) => if |items| == 0 then None else x
    case Some(JObject(fields)) => if |fields| == 0 then None else x
    case _ => x
  }

  /** `filterEmpty(value:)`: `compactMapValues(filterOut)` over the map. */
  function FilterEmpty(value: map<string, Option<JValue>>): (r: map<string, JValue>)
    ensures r.Keys <= value.Keys
    ensures forall k | k in value && value[k].None? :: k !in r
    ensures forall k | k in value && value[k].Some? && IsEmptyCollection(value[k].value) :: k !in r
    ensures forall k | k in value && value[k].Some? && !IsEmptyCollection(value[k].value) ::
      k in r && r[k] == value[k].value
  {
    map k | k in value && FilterOut(value[k]).Some? :: FilterOut(value[k]).value
  }

  /** Every value of a document, wrapped as present. */
  function WrapSome(m: map<string, JValue>): map<string, Option<JValue>> {
    map k | k in m :: Some(m[k])
  }

  /** Filtering removes one level only: a non-empty array or dictionary is
      kept as it is, even when it holds empty collections or nulls. */
  lemma FilterEmptyIsOneLevel(value: map<string, Option<JValue>>, k: string)
    requires k in value && value[k].Some?
    requires (value[k].value.JArray? && value[k].value.items != []) ||
             (value[k].value.JObject? && value[k].value.fields != map[])
    ensures k in FilterEmpty(value) && FilterEmpty(value)[k] == value[k].value
  {
  }

  /** A filtered map holds no empty collection. */
  lemma FilterEmptyLeavesNoEmpty(value: map<string, Option<JValue>>)
    ensures forall k | k in FilterEmpty(value) :: !IsEmptyCollection(FilterEmpty(value)[k])
  {
  }

  /** Filtering is idempotent: filtering an already-filtered map again, with
      each value wrapped as present, changes nothing. */
  lemma FilterEmptyIdempotent(value: map<string, Option<JValue>>)
    ensures FilterEmpty(WrapSome(FilterEmpty(value))) == FilterEmpty(value)
  {
    var once := FilterEmpty(value);
    FilterEmptyLeavesNoEmpty(value);
    assert FilterEmpty(WrapSome(once)).Keys == once.Keys;
  }
}
