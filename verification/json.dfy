/**
 * An already-decoded JSON document (RFC 8259). Decoding text into this tree is
 * done by the toolkit's parser and is not modelled; only the shape of values
 * and the "present with the expected type" lookups the launcher performs are.
 */
module Json {
  import opened Options

  datatype JsonValue =
    | JNull
    | JBool(b: bool)
    | JNumber(n: real)
    | JString(str: string)
    | JArray(items: seq<JsonValue>)
    | JObject(members: map<string, JsonValue>)

  /** A decoded document: `None` when the text did not parse at all. */
  type Document = Option<JsonValue>

  /** QJsonDocument::isObject. */
  predicate IsObject(doc: Document) {
    doc.Some? && doc.value.JObject?
  }

  /** The string stored under `key`, if the key is present and holds a string. */
  function StringMember(o: map<string, JsonValue>, key: string): (r: Option<string>)
    ensures r.Some? <==> key in o && o[key].JString?
    ensures r.Some? ==> o[key] == JString(r.value)
  {
    if key in o && o[key].JString? then Some(o[key].str) else None
  }

  /** The boolean stored under `key`, if the key is present and holds a boolean. */
  function BoolMember(o: map<string, JsonValue>, key: string): (r: Option<bool>)
    ensures r.Some? <==> key in o && o[key].JBool?
    ensures r.Some? ==> o[key] == JBool(r.value)
  {
    if key in o && o[key].JBool? then Some(o[key].b) else None
  }

  /** The elements stored under `key`, if the key is present and holds an array. */
  function ArrayMember(o: map<string, JsonValue>, key: string): (r: Option<seq<JsonValue>>)
    ensures r.Some? <==> key in o && o[key].JArray?
    ensures r.Some? ==> o[key] == JArray(r.value)
  {
    if key in o && o[key].JArray? then Some(o[key].items) else None
  }
}
