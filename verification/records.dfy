/**
 * The records the adapter persists: a model with an optional id and an
 * attribute bag, the JSON codec that turns the bag into a stored string, and
 * the storage key `name + "-" + id` under which a record lives.
 */
module Records {
  import opened Wrappers
  import opened Util

  /** A JSON value as `JSON.parse` produces it (numbers kept as integers). */
  datatype Json =
    | JNull
    | JBool(b: bool)
    | JNumber(n: int)
    | JString(s: string)
    | JArray(items: seq<Json>)
    | JObject(members: map<string, Json>)

  /** What `model.toJSON()` returns and `JSON.parse` gives back. */
  type Attributes = map<string, Json>

  /** A Backbone model as far as the adapter looks at it: `model.id` and `model.attributes`. */
  datatype Model = Model(id: Option<string>, attributes: Attributes)

  /** JavaScript truthiness of `model.id`: absent and the empty string are both falsy. */
  function HasId(m: Model): (b: bool)
    ensures m.id.None? ==> !b
    ensures m.id == Some("") ==> !b
    ensures m.id.Some? && |m.id.value| > 0 ==> b
  {
    m.id.Some? && m.id.value != ""
  }

  /**
   * `JSON.stringify` and `JSON.parse`, kept abstract. `decode` answers None
   * where `JSON.parse` would throw.
   */
  datatype Codec = Codec(encode: Attributes -> string, decode: string -> Option<Attributes>)

  /** Parsing what was stringified gives the attribute bag back. */
  ghost predicate RoundTrips(c: Codec) {
    forall a :: c.decode(c.encode(a)) == Some(a)
  }

  /** The record key `name + "-" + id`. */
  function RecordKey(name: string, id: string): (k: string)
    ensures k != name
  {
    name + "-" + id
  }

  /** Recovers the id from a record key of store `name`; None for any other key. */
  function RecordIdOf(name: string, key: string): (r: Option<string>)
    ensures r.Some? ==> RecordKey(name, r.value) == key
  {
    if |key| > |name| && key[..|name|] == name && key[|name|] == '-' then
      assert key == name + "-" + key[|name| + 1..];
      Some(key[|name| + 1..])
    else None
  }

  /** Every record key of store `name` is recognised, with its id. */
  lemma RecordKeyRoundTrip(name: string, id: string)
    ensures RecordIdOf(name, RecordKey(name, id)) == Some(id)
  {
    var k := RecordKey(name, id);
    assert k[..|name|] == name && k[|name|] == '-' && k[|name| + 1..] == id;
  }

  /** For a fixed store name, different ids have different record keys. */
  lemma RecordKeyInjective(name: string, a: string, b: string)
    requires a != b
    ensures RecordKey(name, a) != RecordKey(name, b)
  {
    RecordKeyRoundTrip(name, a);
    RecordKeyRoundTrip(name, b);
  }

  /** The record keys of `ids`, in order: `_.map(ids, function(id){ return name + "-" + id; })`. */
  function RecordKeys(name: string, ids: seq<string>): (keys: seq<string>)
    ensures |keys| == |ids|
    ensures forall i :: 0 <= i < |ids| ==> keys[i] == RecordKey(name, ids[i])
  {
    seq(|ids|, i requires 0 <= i < |ids| => RecordKey(name, ids[i]))
  }

  /**
   * `if (!model.id) model.id = model.attributes.id = guid()`: a model with an
   * id keeps it; otherwise the fresh pseudo-GUID becomes both its id and its
   * `id` attribute.
   */
  function AssignId(m: Model, draws: seq<Draw>): (r: Model)
    requires |draws| == 8
    ensures HasId(r)
    ensures HasId(m) ==> r == m
    ensures !HasId(m) ==> r.id == Some(Guid(draws))
    ensures !HasId(m) ==> "id" in r.attributes && r.attributes["id"] == JString(r.id.value)
    ensures r.attributes.Keys == m.attributes.Keys + (if HasId(m) then {} else {"id"})
    ensures forall k :: k in m.attributes && k != "id" ==> r.attributes[k] == m.attributes[k]
  {
    if HasId(m) then m
    else
      var g := Guid(draws);
      Model(Some(g), m.attributes["id" := JString(g)])
  }
}
