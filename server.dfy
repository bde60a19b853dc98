/**
 * The backend's in-memory store and its route handlers: the customer array
 * with its CRUD routes and the vehicle array with its list route. Each
 * handler runs to completion before the next request, so each is one method.
 */
module Server {

  import opened Wrappers
  import opened Json
  import opened Table
  import TableProperties

  /** The message of every not-found reply. */
  const NotFoundMessage: string := "Cliente não encontrado"

  /** What a customer handler answers, before it is serialised to HTTP. */
  datatype Reply =
    | Found(record: Record)    // 200 with the record
    | Created(record: Record)  // 201 with the new record
    | NoContent                // 204, empty body
    | NotFound                 // 404 with { error: NotFoundMessage }

  /** The JSON body each reply is sent with, if any. */
  function Body(reply: Reply): Option<Record>
  {
    match reply
    case Found(r) => Some(Serialize(r))
    case Created(r) => Some(Serialize(r))
    case NoContent => None
    case NotFound => Some(map["error" := Str(NotFoundMessage)])
  }

  /** The HTTP status each reply is sent with. */
  function Status(reply: Reply): int
  {
    match reply
    case Found(_) => 200
    case Created(_) => 201
    case NoContent => 204
    case NotFound => 404
  }

  /** The two customers the store starts with. */
  const SeedClientes: seq<Record> := [
    map["id" := Num(1), "nome" := Str("João Silva"),
        "telefone" := Str("(11) 9999-8888"), "email" := Str("joao@email.com")],
    map["id" := Num(2), "nome" := Str("Maria Souza"),
        "telefone" := Str("(11) 9777-6666"), "email" := Str("maria@email.com")]
  ]

  /** The two vehicles the store starts with. */
  const SeedVeiculos: seq<Record> := [
    map["id" := Num(1), "cliente_id" := Num(1), "modelo" := Str("Gol"),
        "ano" := Num(2015), "placa" := Str("ABC1234")],
    map["id" := Num(2), "cliente_id" := Num(2), "modelo" := Str("HB20"),
        "ano" := Num(2018), "placa" := Str("XYZ5678")]
  ]

  /** The seeded collections carry the distinct ids 1 and 2, in that order. */
  lemma SeedIds()
    ensures Dense(SeedClientes) && |SeedClientes| == 2 && UniqueIds(SeedClientes)
    ensures Dense(SeedVeiculos) && |SeedVeiculos| == 2 && UniqueIds(SeedVeiculos)
  {
  }

  /**
   * From the seed, deleting customer 1 and then creating one gives two
   * customers with id 2; get on id 2 returns the older one (Maria).
   */
  lemma SeedDeleteThenCreateDuplicatesId(body: Record)
    ensures var t := AfterCreate(AfterDelete(SeedClientes, Some(1)), body);
      && |t| == 2
      && IdOf(t[0]) == Num(2) && IdOf(t[1]) == Num(2)
      && !UniqueIds(t)
      && FirstMatch(t, Some(2)) == Some(0)
      && t[0] == SeedClientes[1]
  {
  }

  /**
   * Once ids have collided, DELETE on id 2 removes the older record only,
   * so the GET that follows finds the newer one instead of answering not found.
   */
  lemma SeedCollisionDeleteThenGet(body: Record)
    ensures var t := AfterDelete(AfterCreate(AfterDelete(SeedClientes, Some(1)), body), Some(2));
      && |t| == 1
      && FirstMatch(t, Some(2)) == Some(0)
      && t[0] == NewCliente(2, body)
  {
  }

  /** A PUT whose body carries an id duplicates ids too: giving customer 1 the id 2. */
  lemma SeedUpdateDuplicatesId()
    ensures var t := AfterUpdate(SeedClientes, Some(1), map["id" := Num(2)]);
      && IdOf(t[0]) == Num(2) && IdOf(t[1]) == Num(2)
      && !UniqueIds(t)
  {
  }

  /** The module-level arrays `clientes` and `veiculos` and the handlers over them. */
  class Backend {
    var clientes: seq<Record>
    var veiculos: seq<Record>

    /** The store as the process starts it. */
    constructor ()
      ensures clientes == SeedClientes && veiculos == SeedVeiculos
    {
      clientes := SeedClientes;
      veiculos := SeedVeiculos;
    }

    /** GET /api/clientes: every customer, in insertion order. */
    method ListClientes() returns (r: seq<Record>)
      ensures r == clientes
    {
      r := clientes;
    }

    /** GET /api/veiculos: every vehicle, in insertion order. */
    method ListVeiculos() returns (r: seq<Record>)
      ensures r == veiculos
    {
      r := veiculos;
    }

    /** The linear scan of `findIndex`: the first matching index, or -1. */
    method FindIndex(id: Option<int>) returns (k: int)
      ensures -1 <= k < |clientes|
      ensures k == -1 <==> forall j :: 0 <= j < |clientes| ==> !Matches(clientes[j], id)
      ensures 0 <= k ==> Matches(clientes[k], id)
      ensures 0 <= k ==> forall j :: 0 <= j < k ==> !Matches(clientes[j], id)
    {
      k := 0;
      while k < |clientes|
        invariant 0 <= k <= |clientes|
        invariant forall j :: 0 <= j < k ==> !Matches(clientes[j], id)
      {
        if Matches(clientes[k], id) {
          return;
        }
        k := k + 1;
      }
      k := -1;
    }

    /** GET /api/clientes/:id: the first customer with that id, or not found. */
    method GetCliente(id: Option<int>) returns (reply: Reply)
      ensures FirstMatch(clientes, id).None? ==> reply == NotFound
      ensures FirstMatch(clientes, id).Some? ==>
        reply == Found(clientes[FirstMatch(clientes, id).value])
    {
      var k := FindIndex(id);
      if k == -1 {
        reply := NotFound;
      } else {
        TableProperties.FirstMatchAt(clientes, id, k);
        reply := Found(clientes[k]);
      }
    }

    /** POST /api/clientes: append a customer with id `length + 1`. */
    method CreateCliente(body: Record) returns (reply: Reply)
      modifies this
      ensures clientes == AfterCreate(old(clientes), body)
      ensures veiculos == old(veiculos)
      ensures reply == Created(NewCliente(|old(clientes)| + 1, body))
    {
      var novo := NewCliente(|clientes| + 1, body);
      clientes := clientes + [novo];
      reply := Created(novo);
    }

    /** PUT /api/clientes/:id: spread the body over the first matching customer. */
    method UpdateCliente(id: Option<int>, body: Record) returns (reply: Reply)
      modifies this
      ensures clientes == AfterUpdate(old(clientes), id, body)
      ensures veiculos == old(veiculos)
      ensures FirstMatch(old(clientes), id).None? ==> reply == NotFound
      ensures FirstMatch(old(clientes), id).Some? ==>
        reply == Found(clientes[FirstMatch(old(clientes), id).value])
    {
      var k := FindIndex(id);
      if k == -1 {
        return NotFound;
      }
      TableProperties.FirstMatchAt(clientes, id, k);
      clientes := clientes[k := Merge(clientes[k], body)];
      reply := Found(clientes[k]);
    }

    /** DELETE /api/clientes/:id: splice out the first matching customer. */
    method DeleteCliente(id: Option<int>) returns (reply: Reply)
      modifies this
      ensures clientes == AfterDelete(old(clientes), id)
      ensures veiculos == old(veiculos)
      ensures FirstMatch(old(clientes), id).None? ==> reply == NotFound
      ensures FirstMatch(old(clientes), id).Some? ==> reply == NoContent
    {
      var k := FindIndex(id);
      if k == -1 {
        return NotFound;
      }
      TableProperties.FirstMatchAt(clientes, id, k);
      clientes := clientes[..k] + clientes[k + 1..];
      reply := NoContent;
    }
  }

  /**
   * The defect driven through the handlers: on a fresh store, DELETE
   * /api/clientes/1 then POST leaves two live customers with id 2, and
   * GET /api/clientes/2 answers with the older one.
   */
  method DeleteThenCreateScenario(body: Record) returns (listing: seq<Record>, lookup: Reply)
    ensures |listing| == 2 && IdOf(listing[0]) == Num(2) && IdOf(listing[1]) == Num(2)
    ensures lookup == Found(SeedClientes[1])
  {
    var store := new Backend();
    var deleted := store.DeleteCliente(Some(1));
    var created := store.CreateCliente(body);
    SeedDeleteThenCreateDuplicatesId(body);
    listing := store.ListClientes();
    lookup := store.GetCliente(Some(2));
  }

  /**
   * On a fresh store: PUT on an id nobody has is not found and changes
   * nothing, and DELETE of an existing id followed by GET of it is not found.
   */
  method NotFoundScenario(body: Record)
    returns (update: Reply, afterUpdate: seq<Record>, deleted: Reply, lookup: Reply)
    ensures update == NotFound && afterUpdate == SeedClientes
    ensures deleted == NoContent && lookup == NotFound
    ensures Status(update) == 404 && Body(update) == Some(map["error" := Str(NotFoundMessage)])
    ensures Status(deleted) == 204 && Body(deleted) == None
  {
    var store := new Backend();
    SeedIds();
    TableProperties.DenseLookup(SeedClientes, 999);
    update := store.UpdateCliente(Some(999), body);
    afterUpdate := store.ListClientes();
    deleted := store.DeleteCliente(Some(2));
    TableProperties.GetAfterDelete(SeedClientes, Some(2));
    lookup := store.GetCliente(Some(2));
  }
}
