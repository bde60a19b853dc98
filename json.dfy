/**
 * JSON-like values and records as the backend handles them: a record is a
 * JavaScript object, seen as a finite map from property names to values.
 */
module Json {

  import opened Wrappers

  /**
   * A property value. `Undefined` is what a destructured property that the
   * request body does not carry evaluates to; `Num` stands for the integral
   * numbers the store compares ids with; `Opaque` is every other JSON value
   * (fractional numbers, arrays, nested objects), which the store only carries.
   */
  datatype Value =
    | Undefined
    | Null
    | Bool(b: bool)
    | Num(n: int)
    | Str(s: string)
    | Opaque(text: string)

  /** A record (a customer or a vehicle), or a parsed request body. */
  type Record = map<string, Value>

  /** What `obj.key` evaluates to: the property's value, or undefined when it is absent. */
  function Field(r: Record, key: string): Value
  {
    if key in r then r[key] else Undefined
  }

  /** The record's id property, as the handlers read it with `c.id`. */
  function IdOf(r: Record): Value
  {
    Field(r, "id")
  }

  /**
   * The test `c.id === parseInt(req.params.id)`. A parameter that does not
   * parse (`None`, standing for NaN) is never strictly equal to anything, and
   * an id that is not the number itself (a string "1", say) does not match.
   */
  predicate Matches(r: Record, id: Option<int>)
    ensures id.None? ==> !Matches(r, id)
    ensures Matches(r, id) ==> id.Some? && "id" in r && r["id"] == Num(id.value)
  {
    match id
    case None => false
    case Some(n) => IdOf(r) == Num(n)
  }

  /**
   * The shallow object spread `{ ...base, ...body }`: every property of
   * `body` overrides, every property of `base` that `body` does not name survives.
   */
  function Merge(base: Record, body: Record): (m: Record)
    ensures m.Keys == base.Keys + body.Keys
    ensures forall k :: k in body ==> m[k] == body[k]
    ensures forall k :: k in base && k !in body ==> m[k] == base[k]
  {
    base + body
  }

  /**
   * The object a response carries once `res.json` has serialised it: a
   * property whose value is undefined is dropped, every other one is kept.
   */
  function Serialize(r: Record): (j: Record)
    ensures forall k :: k in j <==> k in r && r[k] != Undefined
    ensures forall k :: k in j ==> j[k] == r[k]
  {
    map k | k in r && r[k] != Undefined :: r[k]
  }

  /**
   * The array a list reply carries once `res.json` has serialised it: the
   * same records in the same order, each with its undefined properties dropped.
   */
  function SerializeAll(s: seq<Record>): (j: seq<Record>)
    ensures |j| == |s|
    ensures forall i :: 0 <= i < |s| ==> j[i] == Serialize(s[i])
  {
    if s == [] then [] else [Serialize(s[0])] + SerializeAll(s[1..])
  }

  /** Spreading a body over a record twice is the same as doing it once. */
  lemma MergeIdempotent(base: Record, body: Record)
    ensures Merge(Merge(base, body), body) == Merge(base, body)
  {
  }

  /** An empty body leaves the record as it was. */
  lemma MergeEmptyBody(base: Record)
    ensures Merge(base, map[]) == base
  {
  }
}
