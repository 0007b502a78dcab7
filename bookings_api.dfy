/** api/bookings.js: the serverless handler for `/api/bookings`. */
module BookingsApi {
  import opened Js
  import opened Records
  import opened Stores

  /** `handler(req, res)`: POST creates a booking, GET lists the newest 100,
      any other method is refused with `Allow: GET, POST`, and anything that
      throws becomes a generic 500. */
  method Handler(db: BookingStore, req: Request, faults: Faults) returns (res: Response)
    requires db.Valid()
    modifies db
    ensures db.Valid()
    ensures faults.connect ==> res == ServerError && unchanged(db)
    ensures !faults.connect && req.verb == "POST" ==>
      var p := BodyOf(req.body);
      if faults.readBody || (HasBookingFields(p) && faults.store) then
        res == ServerError && unchanged(db)
      else if !HasBookingFields(p) then
        res == MissingBookingFields && unchanged(db)
      else
        && db.bookings == old(db.bookings) + [NewBooking(p, old(db.nextId), old(db.clock) + 1)]
        && res == Response(201, [], Created(old(db.nextId)))
    ensures !faults.connect && req.verb == "GET" ==>
      && unchanged(db)
      && res == (if faults.store then ServerError else Response(200, [], BookingItems(RecentBookings(db.bookings))))
    ensures !faults.connect && req.verb != "POST" && req.verb != "GET" ==>
      res == NotAllowed(req.verb, ["GET", "POST"]) && unchanged(db)
  {
    if faults.connect {
      return ServerError;
    }
    if req.verb == "POST" {
      if faults.readBody {
        return ServerError;
      }
      var payload := BodyOf(req.body);
      if !HasBookingFields(payload) {
        return MissingBookingFields;
      }
      if faults.store {
        return ServerError;
      }
      var doc := db.Insert(payload);
      return Response(201, [], Created(doc.id));
    }
    if req.verb == "GET" {
      if faults.store {
        return ServerError;
      }
      return Response(200, [], BookingItems(RecentBookings(db.bookings)));
    }
    res := NotAllowed(req.verb, ["GET", "POST"]);
  }
}
