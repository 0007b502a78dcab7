/** server/routes/bookings.js: the Express router for `/api/bookings`. */
module BookingsRoutes {
  import opened Js
  import opened Records
  import opened Stores

  /** `router.post('/')`: a missing body is an empty payload, so it fails the
      required-field check like any payload without `name`, `date` or `time`. */
  method Post(db: BookingStore, body: Option<Payload>, storeFails: bool) returns (res: Response)
    requires db.Valid()
    modifies db
    ensures db.Valid()
    ensures
      var p := BodyOf(body);
      if !HasBookingFields(p) then
        res == MissingBookingFields && unchanged(db)
      else if storeFails then
        res == ServerError && unchanged(db)
      else
        && db.bookings == old(db.bookings) + [NewBooking(p, old(db.nextId), old(db.clock) + 1)]
        && res == Response(201, [], Created(old(db.nextId)))
  {
    var payload := BodyOf(body);
    if !HasBookingFields(payload) {
      return MissingBookingFields;
    }
    if storeFails {
      return ServerError;
    }
    var doc := db.Insert(payload);
    res := Response(201, [], Created(doc.id));
  }

  /** `router.get('/')`: the newest 100 bookings, or 500 when the query throws. */
  method Get(db: BookingStore, storeFails: bool) returns (res: Response)
    requires db.Valid()
    ensures storeFails ==> res == ServerError
    ensures !storeFails ==> res.status == 200 && res.body == BookingItems(RecentBookings(db.bookings))
  {
    if storeFails {
      return ServerError;
    }
    res := Response(200, [], BookingItems(RecentBookings(db.bookings)));
  }

  /** A request without a body is answered 400 and stores nothing. */
  lemma NoBodyIsRejected()
    ensures !HasBookingFields(BodyOf(None))
  {
  }
}
