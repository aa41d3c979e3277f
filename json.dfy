/**
 * JSON values as `response.json()` hands them to the page, and the one
 * JavaScript operation the page performs on them: reading a property.
 */
module Json {
  import opened Wrappers

  /**
   * `string | number | boolean | null | JsonObject | JsonArray`.
   * An object keeps its entries in the order `Object.entries` lists them for
   * the parsed object (how JSON text order becomes that order is not modelled);
   * a number is kept as an abstract real (no floating-point rounding is modelled).
   * An object parsed from JSON text has distinct keys; the type does not
   * enforce this, and `Get` reads the first entry with a key.
   */
  datatype JsonValue =
    | JNull
    | JBool(b: bool)
    | JNumber(n: real)
    | JString(s: string)
    | JArray(items: seq<JsonValue>)
    | JObject(entries: seq<(string, JsonValue)>)

  /** `typeof data !== 'object' || data === null`: everything but arrays and objects. */
  predicate IsScalar(v: JsonValue)
    ensures IsScalar(v) <==> v.JNull? || v.JBool? || v.JNumber? || v.JString?
  {
    !v.JArray? && !v.JObject?
  }

  /** Looks `key` up among an object's entries (the first entry with that key). */
  function Get(entries: seq<(string, JsonValue)>, key: string): Option<JsonValue>
    decreases |entries|
  {
    if entries == [] then None
    else if entries[0].0 == key then Some(entries[0].1)
    else Get(entries[1..], key)
  }

  /** Get finds a key exactly when some entry has it, and then yields the value of the first such entry. */
  lemma {:induction false} GetFirst(entries: seq<(string, JsonValue)>, key: string)
    ensures Get(entries, key).None? <==> forall i :: 0 <= i < |entries| ==> entries[i].0 != key
    ensures Get(entries, key).Some? ==>
              exists i :: 0 <= i < |entries| && entries[i] == (key, Get(entries, key).value)
                          && forall j :: 0 <= j < i ==> entries[j].0 != key
    decreases |entries|
  {
    if entries != [] && entries[0].0 != key {
      var tail := entries[1..];
      GetFirst(tail, key);
      forall i | 0 <= i < |tail| ensures tail[i] == entries[i + 1] { }
      if Get(tail, key).Some? {
        var i :| 0 <= i < |tail| && tail[i] == (key, Get(tail, key).value)
                 && forall j :: 0 <= j < i ==> tail[j].0 != key;
        forall j | 0 <= j < i + 1 ensures entries[j].0 != key {
          if j > 0 { assert entries[j] == tail[j - 1]; }
        }
        assert entries[i + 1] == (key, Get(entries, key).value);
      } else {
        forall i | 0 <= i < |entries| ensures entries[i].0 != key {
          if i > 0 { assert entries[i] == tail[i - 1]; }
        }
      }
    }
  }

  /**
   * JavaScript's `v.key` on a value that is not `null`: only an object has
   * the properties the page reads (`task_id`, `metadata`, `status`); on a
   * string, number, boolean or array they are `undefined` (here `None`).
   */
  function Property(v: JsonValue, key: string): (r: Option<JsonValue>)
    ensures r.Some? ==> v.JObject?
  {
    if v.JObject? then Get(v.entries, key) else None
  }

  /**
   * A property read gives a value exactly when the value is an object with
   * an entry for the key, and then the value of the first such entry.
   */
  lemma PropertyFirst(v: JsonValue, key: string)
    ensures Property(v, key).Some? <==> v.JObject? && exists i :: 0 <= i < |v.entries| && v.entries[i].0 == key
    ensures Property(v, key).Some? ==>
              exists i :: 0 <= i < |v.entries| && v.entries[i] == (key, Property(v, key).value)
                          && forall j :: 0 <= j < i ==> v.entries[j].0 != key
  {
    if v.JObject? {
      GetFirst(v.entries, key);
    }
  }
}
