/**
 * The attribute map the gateway response is parsed into: each key maps to
 * the list of its values in the order they were received. This is the PHP
 * array `array<string, string[]>` that both `SSOUser` constructors take.
 */
module Attributes {
  import opened Common

  type AttrMap = map<string, seq<string>>

  /** `$data[$key] ?? []`. */
  function Values(data: AttrMap, key: string): seq<string> {
    if key in data then data[key] else []
  }

  /** `array_pop` of a list: its last element, None (PHP `null`) for an empty list. */
  function ArrayPop(values: seq<string>): (r: Option<string>)
    ensures r.None? <==> values == []
    ensures r.Some? ==> r.value == values[|values| - 1]
  {
    if values == [] then None else Some(values[|values| - 1])
  }

  /** Taking other keys out of the map leaves the values of `key` as they were. */
  lemma ValuesAfterRemoval(data: AttrMap, removed: set<string>, key: string)
    requires key !in removed
    ensures Values(data - removed, key) == Values(data, key)
  {
  }

  /** What `extractKey` returns: one value for a scalar key, the whole list for a multi-valued one. */
  datatype Extracted = Scalar(value: Option<string>) | List(values: seq<string>)

  /**
   * `extractKey(&$data, $key, $multiValue)`: takes `key` out of the map and
   * returns its last value (its whole list when `multiValue`); `rest` is the
   * map the by-reference `$data` holds afterwards.
   */
  method ExtractKey(data: AttrMap, key: string, multiValue: bool) returns (r: Extracted, rest: AttrMap)
    ensures rest == data - {key} && key !in rest
    ensures multiValue ==> r == List(Values(data, key))
    ensures !multiValue ==> r == Scalar(ArrayPop(Values(data, key)))
  {
    var extracted := Values(data, key);
    rest := data - {key};
    if multiValue {
      r := List(extracted);
    } else {
      r := Scalar(ArrayPop(extracted));
    }
  }

  /** A value of a PHP array such as the one `asArray` returns. */
  datatype Value = NullValue | BoolValue(b: bool) | IntValue(i: int) | StringValue(s: string)
                 | StringList(items: seq<string>) | AttributeMap(m: AttrMap)

  /** A `?string` as a PHP value: `null` or the string. */
  function OptionalString(o: Option<string>): (v: Value)
    ensures v.NullValue? <==> o.None?
    ensures o.Some? ==> v == StringValue(o.value)
  {
    match o
    case None => NullValue
    case Some(s) => StringValue(s)
  }
}
