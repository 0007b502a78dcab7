/** The two collections, Booking and Customer, the request and response
    shapes the handlers exchange, and the handlers' pure parts: the create
    checks, the field whitelists, the `notes || comment || ''` mapping, the
    search filter and the sorted, limited list queries. */
module Records {
  import opened Js
  import opened Ordering

  /** A server-assigned identifier (`_id`). */
  type Id = nat

  /** A parsed JSON body or query string: a key that is not in the map is
      `undefined`. */
  type Payload = map<string, string>

  function Get(p: Payload, k: string): Field {
    if k in p then Some(p[k]) else None
  }

  /** `p` and `p'` give the same value (or both nothing) for each key. */
  ghost predicate AgreeOn(p: Payload, p': Payload, keys: set<string>) {
    forall k :: k in keys ==> Get(p, k) == Get(p', k)
  }

  datatype Booking = Booking(
    id: Id,
    name: string, phone: Field, email: Field, service: Field,
    date: string, time: string, comment: string,
    createdAt: nat, updatedAt: nat)

  datatype Customer = Customer(
    id: Id,
    name: Field, phone: Field, email: Field, comment: Field,
    createdAt: nat, updatedAt: nat)

  function CreatedAt(b: Booking): int { b.createdAt }
  function UpdatedAt(c: Customer): int { c.updatedAt }

  // ---------------------------------------------------------------------
  // requests and responses

  datatype Request = Request(verb: string, query: Payload, body: Option<Payload>)

  /** A `:id` path parameter: a well-formed ObjectId, or text that fails the
      cast (a `CastError`, surfacing as 500). */
  datatype IdParam = ObjectId(id: Id) | Malformed(text: string)

  /** Which awaited step throws: the connection (`dbConnect`), reading the
      body (`readJson`), or the store call (`create`, `find`,
      `findById`, `findByIdAndUpdate`). */
  datatype Faults = Faults(connect: bool, readBody: bool, store: bool)

  datatype Body =
    | Created(id: Id)                    // { ok: true, id }
    | Acknowledged                       // { ok: true }
    | BookingItems(bookings: seq<Booking>)
    | CustomerItems(customers: seq<Customer>)
    | CustomerDoc(customer: Customer)
    | Failure(error: string)             // { error }

  /** Status, the `Allow` header (empty when not set) and the JSON body. */
  datatype Response = Response(status: nat, allow: seq<string>, body: Body)

  const ServerError := Response(500, [], Failure("Server error"))
  const MissingBookingFields := Response(400, [], Failure("Missing required fields: name, date, time"))
  const MissingName := Response(400, [], Failure("Missing required field: name"))
  const NotFound := Response(404, [], Failure("Not found"))

  function NotAllowed(verb: string, allow: seq<string>): Response {
    Response(405, allow, Failure("Method " + verb + " Not Allowed"))
  }

  /** `req.body || {}`: a request without a body is an empty payload. */
  function BodyOf(body: Option<Payload>): Payload {
    if body.Some? then body.value else map[]
  }

  // ---------------------------------------------------------------------
  // bookings

  const BookingListLimit: nat := 100

  /** The keys the create handler reads; nothing else reaches the record. */
  const BookingKeys: set<string> := {"name", "phone", "email", "service", "date", "time", "notes", "comment"}

  /** The create check: `name`, `date` and `time` are all truthy. */
  predicate HasBookingFields(p: Payload) {
    Truthy(Get(p, "name")) && Truthy(Get(p, "date")) && Truthy(Get(p, "time"))
  }

  /** `payload.notes || payload.comment || ''` */
  function BookingComment(p: Payload): (c: string)
    ensures Truthy(Get(p, "notes")) ==> c == p["notes"]
    ensures !Truthy(Get(p, "notes")) && Truthy(Get(p, "comment")) ==> c == p["comment"]
    ensures !Truthy(Get(p, "notes")) && !Truthy(Get(p, "comment")) ==> c == ""
  {
    var notesOrComment := if Truthy(Get(p, "notes")) then Get(p, "notes") else Get(p, "comment");
    OrElse(notesOrComment, "")
  }

  /** The document `Booking.create` receives, with the server's id and clock. */
  function NewBooking(p: Payload, id: Id, now: nat): (b: Booking)
    requires HasBookingFields(p)
    ensures b.name != "" && b.date != "" && b.time != ""
  {
    Booking(id, p["name"], Get(p, "phone"), Get(p, "email"), Get(p, "service"),
            p["date"], p["time"], BookingComment(p), now, now)
  }

  /** Only the whitelisted keys matter: two payloads that agree on them are
      accepted alike and produce the same record, whatever else they hold. */
  lemma BookingWhitelist(p: Payload, p': Payload, id: Id, now: nat)
    requires AgreeOn(p, p', BookingKeys)
    ensures HasBookingFields(p) <==> HasBookingFields(p')
    ensures HasBookingFields(p) ==> NewBooking(p, id, now) == NewBooking(p', id, now)
  {
    assert Get(p, "name") == Get(p', "name") && Get(p, "phone") == Get(p', "phone");
    assert Get(p, "email") == Get(p', "email") && Get(p, "service") == Get(p', "service");
    assert Get(p, "date") == Get(p', "date") && Get(p, "time") == Get(p', "time");
    assert Get(p, "notes") == Get(p', "notes") && Get(p, "comment") == Get(p', "comment");
  }

  /** A client-supplied `createdAt` (or any other extra key) is dropped. */
  lemma ClientKeysDropped(p: Payload, k: string, v: string, id: Id, now: nat)
    requires k !in BookingKeys
    ensures HasBookingFields(p) <==> HasBookingFields(p[k := v])
    ensures HasBookingFields(p) ==> NewBooking(p[k := v], id, now) == NewBooking(p, id, now)
  {
    assert AgreeOn(p, p[k := v], BookingKeys);
    BookingWhitelist(p, p[k := v], id, now);
  }

  /** `Booking.find().sort({ createdAt: -1 }).limit(100)` */
  function RecentBookings(bs: seq<Booking>): seq<Booking> {
    Take(SortDesc(bs, CreatedAt), BookingListLimit)
  }

  /** The booking list holds at most 100 bookings of the store, newest
      first, and every booking it leaves out is older than all it holds. */
  lemma RecentBookingsAreNewest(bs: seq<Booking>)
    ensures var r := RecentBookings(bs);
      && |r| == (if |bs| <= BookingListLimit then |bs| else BookingListLimit)
      && SortedDesc(r, CreatedAt)
      && multiset(r) <= multiset(bs)
      && (forall b :: b in bs ==> b in r || (|r| == BookingListLimit && forall y :: y in r ==> y.createdAt >= b.createdAt))
  {
    NewestFirst(bs, CreatedAt, BookingListLimit);
  }

  /** A booking created after all others heads the next booking list. */
  lemma CreatedBookingListedFirst(bs: seq<Booking>, p: Payload, id: Id, now: nat)
    requires HasBookingFields(p)
    requires forall b :: b in bs ==> b.createdAt < now
    ensures var r := RecentBookings(bs + [NewBooking(p, id, now)]);
      |r| > 0 && r[0] == NewBooking(p, id, now)
  {
    var nb := NewBooking(p, id, now);
    var all := bs + [nb];
    forall y | y in all && y != nb ensures CreatedAt(y) < CreatedAt(nb) {
      assert y in bs;
    }
    NewestIsFirst(all, CreatedAt, nb);
    TakeKeepsFirst(SortDesc(all, CreatedAt), BookingListLimit);
  }

  // ---------------------------------------------------------------------
  // customers

  const CustomerListLimit: nat := 200

  /** `(req.query?.q || '').trim()` */
  function SearchQuery(query: Payload): string {
    Trim(OrElse(Get(query, "q"), ""))
  }

  /** A missing, empty or whitespace-only `q` is no query at all. */
  lemma BlankQueryIsEmpty(query: Payload)
    ensures SearchQuery(query) == "" <==> ("q" !in query || AllSpace(query["q"]))
  {
    TrimEmptyIffAllSpace(OrElse(Get(query, "q"), ""));
  }

  /** `{ field: new RegExp(q, 'i') }` on one field: a missing field never
      matches. */
  predicate FieldMatches(f: Field, q: string) {
    f.Some? && ContainsIgnoringCase(f.value, q)
  }

  /** The list filter: everything when `q` is empty, otherwise the `$or` of
      the three field patterns. */
  predicate CustomerMatches(c: Customer, q: string) {
    q == "" || FieldMatches(c.name, q) || FieldMatches(c.phone, q) || FieldMatches(c.email, q)
  }

  /** `Customer.find(filter)`, in store order. */
  function FilterCustomers(cs: seq<Customer>, q: string): (r: seq<Customer>)
    ensures forall c :: c in r <==> c in cs && CustomerMatches(c, q)
    ensures multiset(r) <= multiset(cs)
  {
    if cs == [] then []
    else
      var rest := FilterCustomers(cs[1..], q);
      assert cs == [cs[0]] + cs[1..];
      if CustomerMatches(cs[0], q) then [cs[0]] + rest else rest
  }

  /** `Customer.find(filter).sort({ updatedAt: -1 }).limit(200)` */
  function ListCustomers(cs: seq<Customer>, q: string): seq<Customer> {
    Take(SortDesc(FilterCustomers(cs, q), UpdatedAt), CustomerListLimit)
  }

  /** The customer list holds at most 200 customers of the store, each
      matching the query, most recently updated first; a matching customer
      it leaves out is updated no later than all it holds. With an empty
      query every customer matches. */
  lemma CustomerListSpec(cs: seq<Customer>, q: string)
    ensures var r := ListCustomers(cs, q);
      && |r| <= CustomerListLimit
      && SortedDesc(r, UpdatedAt)
      && (forall c :: c in r ==> c in cs && CustomerMatches(c, q))
      && (forall c :: c in cs && CustomerMatches(c, q) ==>
            c in r || (|r| == CustomerListLimit && forall y :: y in r ==> y.updatedAt >= c.updatedAt))
      && (q == "" ==> forall c :: c in cs ==> CustomerMatches(c, q))
  {
    var f := FilterCustomers(cs, q);
    NewestFirst(f, UpdatedAt, CustomerListLimit);
    var r := ListCustomers(cs, q);
    forall c | c in r ensures c in cs && CustomerMatches(c, q) {
      assert c in multiset(r);
      assert c in multiset(f);
      assert c in f;
    }
  }

  /** With a non-empty query, a customer is kept exactly when its name,
      phone or email contains the query, ignoring ASCII case. */
  lemma CustomerMatchIff(c: Customer, q: string)
    requires q != ""
    ensures CustomerMatches(c, q) <==>
      || (c.name.Some? && exists i :: MatchesAtIgnoringCase(c.name.value, q, i))
      || (c.phone.Some? && exists i :: MatchesAtIgnoringCase(c.phone.value, q, i))
      || (c.email.Some? && exists i :: MatchesAtIgnoringCase(c.email.value, q, i))
  {
  }

  /** The document `Customer.create` receives. */
  function NewCustomer(p: Payload, id: Id, now: nat): (c: Customer)
    requires Truthy(Get(p, "name"))
    ensures c.name.Some? && c.name.value != ""
  {
    Customer(id, Get(p, "name"), Get(p, "phone"), Get(p, "email"), Get(p, "comment"), now, now)
  }

  /** A customer created after all others heads the list of every query
      its name contains (case aside). */
  lemma CreatedCustomerListedFirst(cs: seq<Customer>, p: Payload, id: Id, now: nat, q: string)
    requires Truthy(Get(p, "name"))
    requires forall c :: c in cs ==> c.updatedAt < now
    requires q == "" || ContainsIgnoringCase(p["name"], q)
    ensures var r := ListCustomers(cs + [NewCustomer(p, id, now)], q);
      |r| > 0 && r[0] == NewCustomer(p, id, now)
  {
    var nc := NewCustomer(p, id, now);
    var all := cs + [nc];
    var f := FilterCustomers(all, q);
    assert nc in f;
    forall y | y in f && y != nc ensures UpdatedAt(y) < UpdatedAt(nc) {
      assert y in cs;
    }
    NewestIsFirst(f, UpdatedAt, nc);
    TakeKeepsFirst(SortDesc(f, UpdatedAt), CustomerListLimit);
  }

  /** The update `findByIdAndUpdate(id, { name, phone, email, comment })`
      applies, with absent body fields written as absent, and the
      timestamp it bumps. */
  function Replace(c: Customer, p: Payload, now: nat): (r: Customer)
    ensures r.id == c.id && r.createdAt == c.createdAt && r.updatedAt == now
  {
    c.(name := Get(p, "name"), phone := Get(p, "phone"), email := Get(p, "email"),
       comment := Get(p, "comment"), updatedAt := now)
  }

  /** Applying the same update twice gives the fields of applying it once. */
  lemma ReplaceIdempotent(c: Customer, p: Payload, t1: nat, t2: nat)
    ensures Replace(Replace(c, p, t1), p, t2) == Replace(c, p, t2)
  {
  }

  /** The first index holding `id`. */
  function IndexOf(cs: seq<Customer>, id: Id): (r: Option<nat>)
    ensures r.None? <==> forall c :: c in cs ==> c.id != id
    ensures r.Some? ==> r.value < |cs| && cs[r.value].id == id
                        && forall k :: 0 <= k < r.value ==> cs[k].id != id
  {
    if cs == [] then None
    else if cs[0].id == id then Some(0)
    else
      var r := IndexOf(cs[1..], id);
      assert cs == [cs[0]] + cs[1..];
      if r.None? then None else Some(r.value + 1)
  }

  /** `Customer.findById(id)`: the first record holding `id`. */
  function Find(cs: seq<Customer>, id: Id): (r: Option<Customer>)
    ensures r.None? <==> forall c :: c in cs ==> c.id != id
    ensures r.Some? ==> r.value in cs && r.value.id == id
    ensures r == (if IndexOf(cs, id).Some? then Some(cs[IndexOf(cs, id).value]) else None)
  {
    var k := IndexOf(cs, id);
    if k.None? then None else Some(cs[k.value])
  }

  /** Where ids are distinct, looking up a record's id finds that record. */
  lemma FindDistinct(cs: seq<Customer>, k: nat)
    requires k < |cs|
    requires forall i, j :: 0 <= i < j < |cs| ==> cs[i].id != cs[j].id
    ensures Find(cs, cs[k].id) == Some(cs[k])
  {
    assert cs[k] in cs;
  }
}
