/** The two collections as stores the handlers write to. Each store hands out
    fresh ids and reads a logical clock that advances on every write, in
    place of the database's ObjectIds and `timestamps: true`. */
module Stores {
  import opened Js
  import opened Records

  class BookingStore {
    var bookings: seq<Booking>
    var clock: nat
    var nextId: Id

    /** Every booking has a name, a date and a time; ids are never reused
        and later bookings carry later ids and creation times. */
    ghost predicate Valid()
      reads this
    {
      && (forall i :: 0 <= i < |bookings| ==>
            && bookings[i].id < nextId && bookings[i].createdAt <= clock
            && bookings[i].updatedAt == bookings[i].createdAt
            && bookings[i].name != "" && bookings[i].date != "" && bookings[i].time != "")
      && (forall i, j :: 0 <= i < j < |bookings| ==>
            bookings[i].id < bookings[j].id && bookings[i].createdAt < bookings[j].createdAt)
    }

    constructor ()
      ensures Valid() && bookings == [] && clock == 0 && nextId == 0
    {
      bookings, clock, nextId := [], 0, 0;
    }

    /** `Booking.create(...)` on a payload that passed the handler's check. */
    method Insert(p: Payload) returns (b: Booking)
      requires Valid() && HasBookingFields(p)
      modifies this
      ensures Valid()
      ensures b == NewBooking(p, old(nextId), old(clock) + 1)
      ensures bookings == old(bookings) + [b]
      ensures clock == old(clock) + 1 && nextId == old(nextId) + 1
    {
      clock := clock + 1;
      b := NewBooking(p, nextId, clock);
      nextId := nextId + 1;
      bookings := bookings + [b];
    }
  }

  class CustomerStore {
    var customers: seq<Customer>
    var clock: nat
    var nextId: Id

    /** Ids are distinct and never reused, `createdAt <= updatedAt`, and no
        two customers share an `updatedAt` (each write takes a fresh tick),
        so the list order is fully determined. */
    ghost predicate Valid()
      reads this
    {
      && (forall i :: 0 <= i < |customers| ==>
            customers[i].id < nextId && customers[i].createdAt <= customers[i].updatedAt <= clock)
      && (forall i, j :: 0 <= i < j < |customers| ==>
            customers[i].id != customers[j].id && customers[i].updatedAt != customers[j].updatedAt)
    }

    constructor ()
      ensures Valid() && customers == [] && clock == 0 && nextId == 0
    {
      customers, clock, nextId := [], 0, 0;
    }

    /** `Customer.create({ name, phone, email, comment })` */
    method Insert(p: Payload) returns (c: Customer)
      requires Valid() && Truthy(Get(p, "name"))
      modifies this
      ensures Valid()
      ensures c == NewCustomer(p, old(nextId), old(clock) + 1)
      ensures customers == old(customers) + [c]
      ensures clock == old(clock) + 1 && nextId == old(nextId) + 1
    {
      clock := clock + 1;
      c := NewCustomer(p, nextId, clock);
      nextId := nextId + 1;
      customers := customers + [c];
    }

    /** `findByIdAndUpdate` on the customer at index `k`: that record gets the
        body's four fields and a new `updatedAt`; every other record and the
        order are untouched. */
    method Update(k: nat, p: Payload)
      requires Valid() && k < |customers|
      modifies this
      ensures Valid()
      ensures |customers| == |old(customers)|
      ensures customers[k] == Replace(old(customers)[k], p, old(clock) + 1)
      ensures forall i :: 0 <= i < |customers| && i != k ==> customers[i] == old(customers)[i]
      ensures clock == old(clock) + 1 && nextId == old(nextId)
    {
      clock := clock + 1;
      customers := customers[k := Replace(customers[k], p, clock)];
    }
  }
}
