/** api/customers/index.js: the serverless handler for `/api/customers`. */
module CustomersApi {
  import opened Js
  import opened Records
  import opened Stores

  /** `handler(req, res)`: GET searches and lists, POST creates, any other
      method is refused with `Allow: GET, POST`, and anything that throws
      becomes a generic 500. */
  method Handler(db: CustomerStore, req: Request, faults: Faults) returns (res: Response)
    requires db.Valid()
    modifies db
    ensures db.Valid()
    ensures faults.connect ==> res == ServerError && unchanged(db)
    ensures !faults.connect && req.verb == "GET" ==>
      && unchanged(db)
      && res == (if faults.store then ServerError
                 else Response(200, [], CustomerItems(ListCustomers(db.customers, SearchQuery(req.query)))))
    ensures !faults.connect && req.verb == "POST" ==>
      var p := BodyOf(req.body);
      if faults.readBody || (Truthy(Get(p, "name")) && faults.store) then
        res == ServerError && unchanged(db)
      else if !Truthy(Get(p, "name")) then
        res == MissingName && unchanged(db)
      else
        && db.customers == old(db.customers) + [NewCustomer(p, old(db.nextId), old(db.clock) + 1)]
        && res == Response(201, [], Created(old(db.nextId)))
    ensures !faults.connect && req.verb != "POST" && req.verb != "GET" ==>
      res == NotAllowed(req.verb, ["GET", "POST"]) && unchanged(db)
  {
    if faults.connect {
      return ServerError;
    }
    if req.verb == "GET" {
      var q := SearchQuery(req.query);
      if faults.store {
        return ServerError;
      }
      return Response(200, [], CustomerItems(ListCustomers(db.customers, q)));
    }
    if req.verb == "POST" {
      if faults.readBody {
        return ServerError;
      }
      var payload := BodyOf(req.body);
      if !Truthy(Get(payload, "name")) {
        return MissingName;
      }
      if faults.store {
        return ServerError;
      }
      var doc := db.Insert(payload);
      return Response(201, [], Created(doc.id));
    }
    res := NotAllowed(req.verb, ["GET", "POST"]);
  }
}
