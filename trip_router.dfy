/**
 * The mutating handlers of routes/triprouter.js. Each loads a trip, runs its
 * checks in the order the handler does, and either reports the first failed
 * check without touching the trip, or edits the trip in place and saves it,
 * which re-derives the status.
 */
module TripRouter {
  import opened Wrappers
  import opened Schema
  import opened Ledger
  import opened CreateHelpers

  /** The error responses of the handlers, without their HTTP codes. */
  datatype TripError =
    | InvalidInput     // the join body's seatsBooked is not a positive integer
    | PhoneTooShort    // fewer than 10 digits and '+' in the phone number
    | DuplicateTrip    // the creator already has a trip with this route and these dates
    | TripNotFound
    | NotJoinable      // the stored status is completed, cancelled or ongoing
    | OwnTrip          // the creator tries to join the trip
    | AlreadyJoined    // the user already holds a booking of any status
    | NotEnoughSeats
    | NotAuthorized    // the actor is not the trip's creator
    | NotBooked        // cancel-booking by a user without a booking
    | BookingNotFound

  /** What every handler keeps true of a trip. */
  predicate TripInvariant(t: TripRecord)
  {
    LedgerInvariant(t.seats, t.createdBy, t.bookings)
  }

  /** The validated body of a create request. */
  datatype TripRequest = TripRequest(
    title: string,
    from: string,
    to: string,
    startDate: Time,
    endDate: Time,
    seats: nat,
    image: string,
    pricePerPerson: nat,
    phoneNo: string,
    modeOfTransport: Option<Transport>)

  /** The phone check of trip creation: the cleaned number, or too short. */
  function ValidatePhone(phoneNo: string): (r: Result<string, TripError>)
    ensures r.Failure? <==> |CleanPhone(phoneNo)| < 10
    ensures r.Failure? ==> r.error == PhoneTooShort
    ensures r.Success? ==> r.value == CleanPhone(phoneNo) && 10 <= |r.value| <= |phoneNo|
  {
    var clean := CleanPhone(phoneNo);
    if |clean| < 10 then Failure(PhoneTooShort) else Success(clean)
  }

  /** The `findOne` that looks for the creator's trip with the same route and dates. */
  predicate HasSameTrip(store: seq<TripRecord>, req: TripRequest, creator: UserId)
    ensures HasSameTrip(store, req, creator) <==>
      exists t :: t in store && t.createdBy == creator
        && (t.from, t.to, t.startDate, t.endDate) == (req.from, req.to, req.startDate, req.endDate)
  {
    exists i :: 0 <= i < |store| && store[i].from == req.from && store[i].to == req.to
      && store[i].startDate == req.startDate && store[i].endDate == req.endDate
      && store[i].createdBy == creator
  }

  /**
   * POST /create. `tripModel.create` saves the new document, so its status
   * is already the derived one: a trip created with past dates is completed.
   */
  method CreateTrip(store: seq<TripRecord>, req: TripRequest, creator: UserId, id: TripId, now: Time)
    returns (r: Result<Trip, TripError>)
    ensures r.Failure? <==> |CleanPhone(req.phoneNo)| < 10 || HasSameTrip(store, req, creator)
    ensures r.Failure? ==> r.error == if |CleanPhone(req.phoneNo)| < 10 then PhoneTooShort else DuplicateTrip
    ensures r.Success? ==>
      && fresh(r.value)
      && r.value.Record() == TripRecord(id, req.title, req.from, req.to, req.startDate, req.endDate,
                                        req.seats, req.image, req.pricePerPerson, CleanPhone(req.phoneNo),
                                        req.modeOfTransport, creator, [],
                                        DeriveStatus(Upcoming, req.startDate, req.endDate, now))
      && TripInvariant(r.value.Record())
  {
    var phone := ValidatePhone(req.phoneNo);
    if phone.Failure? {
      return Failure(phone.error);
    }
    if HasSameTrip(store, req, creator) {
      return Failure(DuplicateTrip);
    }
    var trip := new Trip(id, req.title, req.from, req.to, req.startDate, req.endDate, req.seats,
                         req.image, req.pricePerPerson, phone.value, req.modeOfTransport, creator);
    trip.Save(now);
    return Success(trip);
  }

  /** The checks of POST /:id/join, first failure first. */
  function JoinOutcome(t: Option<TripRecord>, user: UserId, seatsBooked: int): (e: Option<TripError>)
    ensures e == Some(InvalidInput) <==> seatsBooked < 1
    ensures e == Some(TripNotFound) <==> seatsBooked >= 1 && t.None?
    ensures e == Some(NotJoinable) <==> seatsBooked >= 1 && t.Some? && t.value.status != Upcoming
    ensures e == Some(OwnTrip) <==>
      seatsBooked >= 1 && t.Some? && t.value.status == Upcoming && user == t.value.createdBy
    ensures e == Some(AlreadyJoined) <==>
      seatsBooked >= 1 && t.Some? && t.value.status == Upcoming && user != t.value.createdBy
      && HasBookingBy(t.value.bookings, user)
    ensures e == Some(NotEnoughSeats) <==>
      seatsBooked >= 1 && t.Some? && t.value.status == Upcoming && user != t.value.createdBy
      && !HasBookingBy(t.value.bookings, user) && BookedSeats(t.value.bookings) + seatsBooked > t.value.seats
    ensures e == None <==>
      seatsBooked >= 1 && t.Some? && t.value.status == Upcoming && user != t.value.createdBy
      && !HasBookingBy(t.value.bookings, user) && BookedSeats(t.value.bookings) + seatsBooked <= t.value.seats
  {
    if seatsBooked < 1 then Some(InvalidInput)
    else if t.None? then Some(TripNotFound)
    else if t.value.status == Completed || t.value.status == Cancelled || t.value.status == Ongoing then Some(NotJoinable)
    else
      assert t.value.status == Upcoming;
      if t.value.createdBy == user then Some(OwnTrip)
      else if HasBookingBy(t.value.bookings, user) then Some(AlreadyJoined)
      else if BookedSeats(t.value.bookings) + seatsBooked > t.value.seats then Some(NotEnoughSeats)
      else None
  }

  /** A join that passes its checks keeps the trip invariant. */
  lemma JoinKeepsInvariant(t: TripRecord, user: UserId, seatsBooked: int, bookingId: BookingId, status: TripStatus)
    requires TripInvariant(t)
    requires JoinOutcome(Some(t), user, seatsBooked) == None
    requires FreshId(t.bookings, bookingId)
    ensures TripInvariant(t.(bookings := t.bookings + [Booking(bookingId, user, seatsBooked, Pending)], status := status))
  {
    AppendKeepsInvariant(t.seats, t.createdBy, t.bookings, Booking(bookingId, user, seatsBooked, Pending));
  }

  /**
   * POST /:id/join: appends one pending booking and saves. `bookingId` is
   * the ObjectId the new subdocument receives.
   */
  method Join(trip: Trip?, user: UserId, seatsBooked: int, bookingId: BookingId, now: Time)
    returns (err: Option<TripError>)
    modifies trip
    ensures err == JoinOutcome(old(Load(trip)), user, seatsBooked)
    ensures err.Some? && trip != null ==> unchanged(trip)
    ensures err.None? ==>
      && trip != null && seatsBooked >= 1
      && trip.bookings == old(trip.bookings) + [Booking(bookingId, user, seatsBooked, Pending)]
      && trip.status == DeriveStatus(old(trip.status), trip.startDate, trip.endDate, now)
    ensures trip != null && old(TripInvariant(trip.Record())) && old(FreshId(trip.bookings, bookingId)) ==>
      TripInvariant(trip.Record())
  {
    if seatsBooked < 1 {
      return Some(InvalidInput);
    }
    if trip == null {
      return Some(TripNotFound);
    }
    if trip.status == Completed || trip.status == Cancelled || trip.status == Ongoing {
      return Some(NotJoinable);
    }
    if trip.createdBy == user {
      return Some(OwnTrip);
    }
    if HasBookingBy(trip.bookings, user) {
      return Some(AlreadyJoined);
    }
    if BookedSeats(trip.bookings) + seatsBooked > trip.seats {
      return Some(NotEnoughSeats);
    }
    ghost var before := trip.Record();
    trip.bookings := trip.bookings + [Booking(bookingId, user, seatsBooked, Pending)];
    trip.Save(now);
    if TripInvariant(before) && FreshId(before.bookings, bookingId) {
      JoinKeepsInvariant(before, user, seatsBooked, bookingId, trip.status);
      assert trip.Record() == before.(bookings := trip.bookings, status := trip.status);
    }
    err := None;
  }

  /** The checks of POST /:id/cancel. */
  function CancelTripOutcome(t: Option<TripRecord>, actor: UserId): (e: Option<TripError>)
    ensures e == Some(TripNotFound) <==> t.None?
    ensures e == Some(NotAuthorized) <==> t.Some? && t.value.createdBy != actor
    ensures e == None <==> t.Some? && t.value.createdBy == actor
  {
    if t.None? then Some(TripNotFound)
    else if t.value.createdBy != actor then Some(NotAuthorized)
    else None
  }

  /**
   * POST /:id/cancel: sets the status to cancelled and saves, whatever the
   * stored status. The save keeps `cancelled` only for a trip that has not
   * started (see Schema.CancelUndoneOnceStarted).
   */
  method CancelTrip(trip: Trip?, actor: UserId, now: Time) returns (err: Option<TripError>)
    modifies trip
    ensures err == CancelTripOutcome(old(Load(trip)), actor)
    ensures err.Some? && trip != null ==> unchanged(trip)
    ensures err.None? ==>
      && trip != null && trip.bookings == old(trip.bookings)
      && trip.status == DeriveStatus(Cancelled, trip.startDate, trip.endDate, now)
    ensures trip != null && old(TripInvariant(trip.Record())) ==> TripInvariant(trip.Record())
  {
    if trip == null {
      return Some(TripNotFound);
    }
    if trip.createdBy != actor {
      return Some(NotAuthorized);
    }
    trip.status := Cancelled;
    trip.Save(now);
    err := None;
  }

  /** The checks of POST /:id/cancel-booking; the trip's status is not among them. */
  function CancelBookingOutcome(t: Option<TripRecord>, actor: UserId): (e: Option<TripError>)
    ensures e == Some(TripNotFound) <==> t.None?
    ensures e == Some(NotBooked) <==> t.Some? && !HasBookingBy(t.value.bookings, actor)
    ensures e == None <==> t.Some? && HasBookingBy(t.value.bookings, actor)
  {
    if t.None? then Some(TripNotFound)
    else if IndexOfUser(t.value.bookings, actor) == -1 then Some(NotBooked)
    else None
  }

  /** Removing a booking keeps the trip invariant. */
  lemma CancelBookingKeepsInvariant(t: TripRecord, i: nat, status: TripStatus)
    requires i < |t.bookings|
    requires TripInvariant(t)
    ensures TripInvariant(t.(bookings := RemoveAt(t.bookings, i), status := status))
  {
    RemoveKeepsInvariant(t.seats, t.createdBy, t.bookings, i);
  }

  /** POST /:id/cancel-booking: removes the caller's first booking and saves. */
  method CancelBooking(trip: Trip?, actor: UserId, now: Time) returns (err: Option<TripError>)
    modifies trip
    ensures err == CancelBookingOutcome(old(Load(trip)), actor)
    ensures err.Some? && trip != null ==> unchanged(trip)
    ensures err.None? ==>
      && trip != null && IndexOfUser(old(trip.bookings), actor) >= 0
      && trip.bookings == RemoveAt(old(trip.bookings), IndexOfUser(old(trip.bookings), actor))
      && trip.status == DeriveStatus(old(trip.status), trip.startDate, trip.endDate, now)
    ensures trip != null && old(TripInvariant(trip.Record())) ==> TripInvariant(trip.Record())
  {
    if trip == null {
      return Some(TripNotFound);
    }
    var bookingIndex := IndexOfUser(trip.bookings, actor);
    if bookingIndex == -1 {
      return Some(NotBooked);
    }
    ghost var before := trip.Record();
    trip.bookings := trip.bookings[..bookingIndex] + trip.bookings[bookingIndex + 1..];
    trip.Save(now);
    if TripInvariant(before) {
      CancelBookingKeepsInvariant(before, bookingIndex, trip.status);
      assert trip.Record() == before.(bookings := trip.bookings, status := trip.status);
    }
    err := None;
  }

  /** The checks shared by accept and reject; there is no "must be pending" check. */
  function DecisionOutcome(t: Option<TripRecord>, actor: UserId, bookingId: BookingId): (e: Option<TripError>)
    ensures e == Some(TripNotFound) <==> t.None?
    ensures e == Some(NotAuthorized) <==> t.Some? && t.value.createdBy != actor
    ensures e == Some(BookingNotFound) <==>
      t.Some? && t.value.createdBy == actor && forall j :: 0 <= j < |t.value.bookings| ==> t.value.bookings[j].id != bookingId
    ensures e == None <==>
      t.Some? && t.value.createdBy == actor && exists j :: 0 <= j < |t.value.bookings| && t.value.bookings[j].id == bookingId
  {
    if t.None? then Some(TripNotFound)
    else if t.value.createdBy != actor then Some(NotAuthorized)
    else if IndexOfId(t.value.bookings, bookingId) == -1 then Some(BookingNotFound)
    else None
  }

  /** Changing a booking's status keeps the trip invariant. */
  lemma DecisionKeepsInvariant(t: TripRecord, i: nat, decision: BookingStatus, status: TripStatus)
    requires i < |t.bookings|
    requires TripInvariant(t)
    ensures TripInvariant(t.(bookings := WithStatusAt(t.bookings, i, decision), status := status))
  {
    WithStatusKeepsInvariant(t.seats, t.createdBy, t.bookings, i, decision);
  }

  /**
   * The body shared by accept and reject: sets the status of the booking
   * with that id to `decision`, whatever its status was, and saves.
   */
  method Decide(trip: Trip?, actor: UserId, bookingId: BookingId, decision: BookingStatus, now: Time)
    returns (err: Option<TripError>)
    modifies trip
    ensures err == DecisionOutcome(old(Load(trip)), actor, bookingId)
    ensures err.Some? && trip != null ==> unchanged(trip)
    ensures err.None? ==>
      && trip != null && IndexOfId(old(trip.bookings), bookingId) >= 0
      && trip.bookings == WithStatusAt(old(trip.bookings), IndexOfId(old(trip.bookings), bookingId), decision)
      && trip.status == DeriveStatus(old(trip.status), trip.startDate, trip.endDate, now)
    ensures trip != null && old(TripInvariant(trip.Record())) ==> TripInvariant(trip.Record())
  {
    if trip == null {
      return Some(TripNotFound);
    }
    if trip.createdBy != actor {
      return Some(NotAuthorized);
    }
    var k := IndexOfId(trip.bookings, bookingId);
    if k == -1 {
      return Some(BookingNotFound);
    }
    ghost var before := trip.Record();
    trip.bookings := trip.bookings[k := trip.bookings[k].(status := decision)];
    trip.Save(now);
    if TripInvariant(before) {
      DecisionKeepsInvariant(before, k, decision, trip.status);
      assert trip.Record() == before.(bookings := trip.bookings, status := trip.status);
    }
    err := None;
  }

  /** POST /:id/booking/:bookingId/accept. */
  method Accept(trip: Trip?, actor: UserId, bookingId: BookingId, now: Time) returns (err: Option<TripError>)
    modifies trip
    ensures err == DecisionOutcome(old(Load(trip)), actor, bookingId)
    ensures err.Some? && trip != null ==> unchanged(trip)
    ensures err.None? ==>
      && trip != null && IndexOfId(old(trip.bookings), bookingId) >= 0
      && trip.bookings == WithStatusAt(old(trip.bookings), IndexOfId(old(trip.bookings), bookingId), Accepted)
      && trip.status == DeriveStatus(old(trip.status), trip.startDate, trip.endDate, now)
    ensures trip != null && old(TripInvariant(trip.Record())) ==> TripInvariant(trip.Record())
  {
    err := Decide(trip, actor, bookingId, Accepted, now);
  }

  /** POST /:id/bookings/:bookingId/reject. */
  method Reject(trip: Trip?, actor: UserId, bookingId: BookingId, now: Time) returns (err: Option<TripError>)
    modifies trip
    ensures err == DecisionOutcome(old(Load(trip)), actor, bookingId)
    ensures err.Some? && trip != null ==> unchanged(trip)
    ensures err.None? ==>
      && trip != null && IndexOfId(old(trip.bookings), bookingId) >= 0
      && trip.bookings == WithStatusAt(old(trip.bookings), IndexOfId(old(trip.bookings), bookingId), Rejected)
      && trip.status == DeriveStatus(old(trip.status), trip.startDate, trip.endDate, now)
    ensures trip != null && old(TripInvariant(trip.Record())) ==> TripInvariant(trip.Record())
  {
    err := Decide(trip, actor, bookingId, Rejected, now);
  }
}
