/** server/routes/customers.js: the Express router for `/api/customers`. */
module CustomersRoutes {
  import opened Js
  import opened Records
  import opened Stores

  /** `router.get('/')`: the filtered, sorted, limited list. */
  method List(db: CustomerStore, query: Payload, storeFails: bool) returns (res: Response)
    requires db.Valid()
    ensures storeFails ==> res == ServerError
    ensures !storeFails ==>
      res.status == 200 && res.body == CustomerItems(ListCustomers(db.customers, SearchQuery(query)))
  {
    var q := SearchQuery(query);
    if storeFails {
      return ServerError;
    }
    res := Response(200, [], CustomerItems(ListCustomers(db.customers, q)));
  }

  /** `router.post('/')`: a falsy `name` is refused before the store is
      touched; otherwise one record is added from the four fields. */
  method Create(db: CustomerStore, body: Option<Payload>, storeFails: bool) returns (res: Response)
    requires db.Valid()
    modifies db
    ensures db.Valid()
    ensures
      var p := BodyOf(body);
      if !Truthy(Get(p, "name")) then
        res == MissingName && unchanged(db)
      else if storeFails then
        res == ServerError && unchanged(db)
      else
        && db.customers == old(db.customers) + [NewCustomer(p, old(db.nextId), old(db.clock) + 1)]
        && res == Response(201, [], Created(old(db.nextId)))
  {
    var payload := BodyOf(body);
    if !Truthy(Get(payload, "name")) {
      return MissingName;
    }
    if storeFails {
      return ServerError;
    }
    var doc := db.Insert(payload);
    res := Response(201, [], Created(doc.id));
  }

  /** `router.put('/:id')`: the record with that id takes the body's
      `name`, `phone`, `email` and `comment` (absent ones become absent, and
      no field is checked), the rest of the store is untouched, and the
      answer is `{ ok: true }`; an unknown id is 404, a malformed one 500. */
  method Update(db: CustomerStore, id: IdParam, body: Option<Payload>, storeFails: bool) returns (res: Response)
    requires db.Valid()
    modifies db
    ensures db.Valid()
    ensures id.Malformed? || storeFails ==> res == ServerError && unchanged(db)
    ensures id.ObjectId? && !storeFails ==>
      var k := IndexOf(old(db.customers), id.id);
      if k.None? then
        res == NotFound && unchanged(db)
      else
        && res == Response(200, [], Acknowledged)
        && |db.customers| == |old(db.customers)|
        && db.customers[k.value] == Replace(old(db.customers)[k.value], BodyOf(body), old(db.clock) + 1)
        && (forall i :: 0 <= i < |db.customers| && i != k.value ==> db.customers[i] == old(db.customers)[i])
        && db.nextId == old(db.nextId)
  {
    var payload := BodyOf(body);
    if id.Malformed? || storeFails {
      return ServerError;
    }
    var k := IndexOf(db.customers, id.id);
    if k.None? {
      return NotFound;
    }
    db.Update(k.value, payload);
    res := Response(200, [], Acknowledged);
  }

  /** `router.get('/:id')`: the stored record, 404 for an unknown id, 500
      for a malformed one. */
  method Read(db: CustomerStore, id: IdParam, storeFails: bool) returns (res: Response)
    requires db.Valid()
    ensures id.Malformed? || storeFails ==> res == ServerError
    ensures id.ObjectId? && !storeFails ==>
      match Find(db.customers, id.id)
      case None => res == NotFound
      case Some(c) => res == Response(200, [], CustomerDoc(c)) && c in db.customers && c.id == id.id
  {
    if id.Malformed? || storeFails {
      return ServerError;
    }
    var doc := Find(db.customers, id.id);
    if doc.None? {
      return NotFound;
    }
    res := Response(200, [], CustomerDoc(doc.value));
  }

  /** Creating a customer and then reading it back by the id the create
      answered gives the body's four fields with that id and the create's
      timestamps; a create refused for its name leaves nothing to read. */
  method CreateThenRead(db: CustomerStore, body: Option<Payload>) returns (created: Response, read: Response)
    requires db.Valid()
    modifies db
    ensures db.Valid()
    ensures
      var p := BodyOf(body);
      if Truthy(Get(p, "name")) then
        && created == Response(201, [], Created(old(db.nextId)))
        && read == Response(200, [], CustomerDoc(NewCustomer(p, old(db.nextId), old(db.clock) + 1)))
      else
        created == MissingName && read == NotFound
  {
    var id := db.nextId;
    created := Create(db, body, false);
    if Truthy(Get(BodyOf(body), "name")) {
      FindDistinct(db.customers, |db.customers| - 1);
    }
    read := Read(db, ObjectId(id), false);
  }

  /** Updating a customer and then reading it back gives the stored record
      with exactly its four fields replaced from the body and a new
      `updatedAt`; its id and `createdAt` are kept. */
  method UpdateThenRead(db: CustomerStore, id: Id, body: Option<Payload>) returns (updated: Response, read: Response)
    requires db.Valid()
    modifies db
    ensures db.Valid()
    ensures
      match Find(old(db.customers), id)
      case None => updated == NotFound && read == NotFound && unchanged(db)
      case Some(c) =>
        && updated == Response(200, [], Acknowledged)
        && read == Response(200, [], CustomerDoc(Replace(c, BodyOf(body), old(db.clock) + 1)))
  {
    var k := IndexOf(db.customers, id);
    updated := Update(db, ObjectId(id), body, false);
    if k.Some? {
      FindDistinct(db.customers, k.value);
    }
    read := Read(db, ObjectId(id), false);
  }
}
