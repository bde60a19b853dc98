# CRV Auto backend store, modelled in Dafny

This project models the in-memory record store in the CRV Auto backend. The
store is a module-level array of customers (`clientes`) and one of vehicles
(`veiculos`), both seeded with two records. Five customer handlers read and
change `clientes`:

- list all customers;
- get a customer by id;
- create a customer with the id `length + 1`;
- update a customer by spreading the request body over it;
- delete a customer by splicing it out.

A sixth handler lists `veiculos`; vehicles have no other route.

The model has five modules:

- `Wrappers` holds the `Option` type.

- `Json` holds property values and records, the `{ ...base, ...body }` merge and response serialisation.
- `Table` gives the customer table as a sequence of records, with the first-match lookup and what each handler turns the table into.
- `TableProperties` holds lemmas that cover several requests: lookups after create, update and delete, and when ids stay unique.
- `Server` holds the seeds, the replies with their status codes and bodies, the `Backend` class, whose fields are the two arrays and whose methods are the handlers, and two scenario methods that call the handlers on a fresh store.

Each state-changing handler is a method with `modifies this`. Its `ensures`
gives the new customer table as a function of the old one from `Table`, and
states that the vehicles are unchanged. `Get`, `Update` and `Delete` all use
one loop, `FindIndex`, which is the linear scan that `find` and `findIndex`
perform. The `find` in the get handler returns the element at that index.

A record is a map from property name to value. The value `Undefined` is kept
because the create handler destructures `nome`, `telefone` and `email` from the
body, and a property the body lacks is stored with the value undefined. `res.json`
then drops it (`Serialize`). The path parameter is an `Option<int>`: `None`
stands for the NaN that `parseInt` gives for a parameter that is not a number.
NaN is never strictly equal to an id, so such a request is always not found.

The id scheme `length + 1` does not keep ids unique once a delete has run.
`DeleteThenCreateUniqueIff` shows the exact condition: on a table whose ids are
1..n, deleting id k and then creating a customer keeps ids unique only when k = n.
`DuplicateIdResolvesToOlder` shows that a get on the reused id then keeps
returning the older record. `SeedDeleteThenCreateDuplicatesId` and
`DeleteThenCreateScenario` work this through from the seed: delete customer 1,
create a customer, and two customers now have id 2. After that, deleting id 2
removes only the older record, so a following get on id 2 finds the new one
(`SeedCollisionDeleteThenGet`, and `GetAfterDeleteFindsNextMatch` in general).
A PUT whose body carries an id can duplicate ids as well (`SeedUpdateDuplicatesId`).
The model keeps the
source's behaviour and does not correct it.

## Model

| member | source | states |
|---|---|---|
| Json.Matches | backend/server.js:31 | the strict equality `c.id === parseInt(...)`: an unparsable id (NaN) matches nothing; a match means the record has an id property that is that very number, so a string id such as "1" never matches |
| Json.Merge | backend/server.js:54 | the spread merge has the union of keys; body values override; properties the body does not name keep their old value |
| Json.MergeIdempotent | backend/server.js:54 | spreading the same body twice gives the same record as spreading it once |
| Json.MergeEmptyBody | backend/server.js:54 | an update with an empty body leaves the record unchanged |
| Json.Serialize | backend/server.js:46 | the JSON a reply carries holds exactly the properties whose value is not undefined, with their values |
| Json.SerializeAll | backend/server.js:26 | the listing as sent has the same records in the same order, each with exactly its undefined-valued properties dropped |
| Table.FirstMatch | backend/server.js:31 | returns the first index whose id strictly equals the parsed id, with no match before it; returns None exactly when no record matches, including for an unparsable id |
| Table.NewCliente | backend/server.js:38-44 | the new customer has exactly the keys id, nome, telefone and email; its id is the one given; each of the three fields is the body's value or undefined; other body fields are dropped |
| Table.AfterCreate | backend/server.js:37-46 | create adds exactly one record at the end, with id old length + 1; every earlier record is unchanged |
| Table.AfterUpdate | backend/server.js:50-56 | with no match the table is unchanged; otherwise only the first matching record changes, to the merge of it and the body, and the length is kept |
| Table.AfterDelete | backend/server.js:59-65 | with no match the table is unchanged; otherwise exactly the first match is removed, the length drops by one, and the others keep their relative order |
| TableProperties.UniqueFirstMatch | backend/server.js:31 | when ids are unique, the first match is the record that carries the id |
| TableProperties.DenseLookup | backend/server.js:12-15 | a table with ids 1..n has unique ids; id k is found at index k - 1 when 1 <= k <= n, and is not found otherwise |
| TableProperties.CreateKeepsDense | backend/server.js:40 | with no deletes, create keeps the ids 1..n and so unique |
| TableProperties.CreateUniqueIff | backend/server.js:40 | create keeps ids unique if and only if they were unique and no record already has id length + 1 |
| TableProperties.GetAfterCreate | backend/server.js:31 | a get for the id just created finds the new record if and only if no older record has that id; otherwise it finds the older record |
| TableProperties.DeleteKeepsUniqueIds | backend/server.js:63 | delete preserves id uniqueness |
| TableProperties.GetAfterDelete | backend/server.js:60-63 | with unique ids, a get after deleting an id is not found |
| TableProperties.GetAfterDeleteFindsNextMatch | backend/server.js:60-63 | a get after a delete finds the next record with the same id; it is not found exactly when no later record has that id |
| TableProperties.DeleteThenCreateUniqueIff | backend/server.js:40 | on ids 1..n, deleting id k and then creating a customer gives it id n; ids stay unique if and only if k = n; otherwise the previous last record also has id n |
| TableProperties.DuplicateIdResolvesToOlder | backend/server.js:31 | after that collision, a get on id n returns the older record, never the new one |
| TableProperties.UpdateKeepsUniqueIds | backend/server.js:54 | an update whose body has no id keeps ids unique |
| TableProperties.GetAfterUpdate | backend/server.js:51-55 | after an update, a get with the same id finds the merged record at the same index if the body has no id; if the body has an id, it overwrites the stored id |
| TableProperties.UpdateIdempotent | backend/server.js:51-54 | repeating a PUT whose body has no id leaves the table as the first one left it |
| TableProperties.CreatedResponseFields | backend/server.js:39-46 | the created customer's reply has id plus exactly those of nome, telefone and email that the body defines (for example, no email when the body has none, and never endereco) |
| TableProperties.ListedWithoutEmail | backend/server.js:26 | after a create whose body has no email, the serialised listing has one more record, whose id is the new id and which has no email key |
| Server.SeedIds | backend/server.js:12-20 | customers and vehicles both start with the distinct ids 1 and 2, in order |
| Server.SeedDeleteThenCreateDuplicatesId | backend/server.js:40 | from the seed, deleting id 1 and then creating a customer gives two customers with id 2, and a get on id 2 returns Maria's record |
| Server.SeedCollisionDeleteThenGet | backend/server.js:63 | after that collision, deleting id 2 removes only Maria's record, and a get on id 2 then finds the new customer rather than not found |
| Server.SeedUpdateDuplicatesId | backend/server.js:54 | from the seed, a PUT on id 1 with body `{id: 2}` gives two customers with id 2 |
| Server.Backend.constructor | backend/server.js:12-20 | the store starts with the seeded customers and vehicles |
| Server.Backend.ListClientes | backend/server.js:25-27 | returns the customer array as it is, in insertion order, and changes nothing |
| Server.Backend.ListVeiculos | backend/server.js:68-70 | returns the vehicle array as it is and changes nothing |
| Server.Backend.FindIndex | backend/server.js:51 | returns -1 if and only if no customer matches; otherwise returns the first matching index |
| Server.Backend.GetCliente | backend/server.js:30-34 | found with the first matching customer, or not found when there is none or the id does not parse; changes nothing |
| Server.Backend.CreateCliente | backend/server.js:37-47 | the table becomes AfterCreate of the old one; vehicles are unchanged; the reply is created with the new record |
| Server.Backend.UpdateCliente | backend/server.js:50-56 | the table becomes AfterUpdate of the old one; vehicles are unchanged; the reply is not found, or found with the merged record |
| Server.Backend.DeleteCliente | backend/server.js:59-65 | the table becomes AfterDelete of the old one; vehicles are unchanged; the reply is not found, or no content |
| Server.DeleteThenCreateScenario | backend/server.js:59-64 | on a fresh store, delete 1 then create gives a list with two customers of id 2, and get 2 answers with the older one |
| Server.NotFoundScenario | backend/server.js:51-52 | on a fresh store, updating id 999 is not found (404 with the error message body) and the listing afterwards is still the seed; deleting id 2 succeeds (204, no body), and a get on id 2 afterwards is not found |

## Left out

- HTTP and Express plumbing: CORS, JSON body parsing, `app.listen`, logging, headers and the wire encoding. Each by-id customer handler answers with a `Reply` value. `Status` gives its status code and `Body` gives the JSON object it carries. The two list handlers return the array that `res.json` is given; `SerializeAll` gives the array as it is sent, with undefined properties dropped from every record.
- The health route `/` (backend/server.js:72-74): its only content is a clock read.
- The whole frontend (frontend/src/App.jsx): React state, rendering, network calls and dialogs. It has no store logic of its own. Its vehicle POST targets a route the backend does not define.
- `parseInt` string semantics (whitespace, sign, trailing characters). The path parameter becomes already parsed, as `Option<int>`.
- Numbers are integers. Fractional numbers, arrays and nested objects in a body appear only as `Opaque` values, which never equal an id.
- Property order within an object, which JSON serialisation preserves, is not modelled: a record is a map.
- A request body that is not a JSON object (an array, or no body at all) is not modelled. The body is always a map.
- Concurrency between requests is not modelled. Handlers are synchronous, so each is one atomic method.
- Server.Backend.GetCliente, UpdateCliente and DeleteCliente share the one `FindIndex` scan. In the source, get uses `find` and the others use `findIndex`; both stop at the same first match.
