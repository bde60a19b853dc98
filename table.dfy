/**
 * The customer table as a value: a sequence of records in insertion order,
 * and what each handler of the backend turns it into.
 */
module Table {

  import opened Wrappers
  import opened Json

  /** The body properties a created customer takes over; everything else in the body is dropped. */
  const CreateFields: set<string> := {"nome", "telefone", "email"}

  /**
   * The index `find`/`findIndex` stop at: the first record whose id is the
   * parsed parameter, or nothing when no record matches.
   */
  function FirstMatch(s: seq<Record>, id: Option<int>): (r: Option<nat>)
    ensures r.Some? ==> r.value < |s| && Matches(s[r.value], id)
    ensures r.Some? ==> forall j :: 0 <= j < r.value ==> !Matches(s[j], id)
    ensures r.None? <==> forall j :: 0 <= j < |s| ==> !Matches(s[j], id)
  {
    if |s| == 0 then None
    else if Matches(s[0], id) then Some(0)
    else match FirstMatch(s[1..], id)
      case None => None
      case Some(i) => Some(i + 1)
  }

  /**
   * The customer the create handler builds: the id it is given and the
   * three destructured body properties, each undefined when the body lacks it.
   */
  function NewCliente(id: int, body: Record): (r: Record)
    ensures r.Keys == CreateFields + {"id"}
    ensures IdOf(r) == Num(id)
    ensures forall k :: k in CreateFields && k in body ==> r[k] == body[k]
    ensures forall k :: k in CreateFields && k !in body ==> r[k] == Undefined
  {
    map["id" := Num(id),
        "nome" := Field(body, "nome"),
        "telefone" := Field(body, "telefone"),
        "email" := Field(body, "email")]
  }

  /** The table after a create: one record more, taking the id `length + 1`. */
  function AfterCreate(s: seq<Record>, body: Record): (t: seq<Record>)
    ensures |t| == |s| + 1
    ensures forall i :: 0 <= i < |s| ==> t[i] == s[i]
    ensures t[|s|] == NewCliente(|s| + 1, body)
    ensures IdOf(t[|s|]) == Num(|s| + 1)
  {
    s + [NewCliente(|s| + 1, body)]
  }

  /**
   * The table after an update: the first matching record has the body
   * spread over it; with no match the table is as it was.
   */
  function AfterUpdate(s: seq<Record>, id: Option<int>, body: Record): (t: seq<Record>)
    ensures |t| == |s|
    ensures FirstMatch(s, id).None? ==> t == s
    ensures FirstMatch(s, id).Some? ==>
      var i := FirstMatch(s, id).value;
      t[i] == Merge(s[i], body) && forall j :: 0 <= j < |s| && j != i ==> t[j] == s[j]
  {
    match FirstMatch(s, id)
    case None => s
    case Some(i) => s[i := Merge(s[i], body)]
  }

  /**
   * The table after a delete: the first matching record is cut out and the
   * rest keep their relative order; with no match the table is as it was.
   */
  function AfterDelete(s: seq<Record>, id: Option<int>): (t: seq<Record>)
    ensures FirstMatch(s, id).None? ==> t == s
    ensures FirstMatch(s, id).Some? ==>
      var i := FirstMatch(s, id).value;
      && |t| == |s| - 1
      && (forall j :: 0 <= j < i ==> t[j] == s[j])
      && (forall j :: i <= j < |t| ==> t[j] == s[j + 1])
  {
    match FirstMatch(s, id)
    case None => s
    case Some(i) => s[..i] + s[i + 1..]
  }

  /** No two records of the table carry the same id. */
  ghost predicate UniqueIds(s: seq<Record>)
  {
    forall i, j :: 0 <= i < j < |s| ==> IdOf(s[i]) != IdOf(s[j])
  }

  /** The ids are exactly 1, 2, ..., |s| in order: the shape a table has before any delete. */
  ghost predicate Dense(s: seq<Record>)
  {
    forall i :: 0 <= i < |s| ==> IdOf(s[i]) == Num(i + 1)
  }
}
