/**
 * POST /create-order/:tripId of routes/paymentRouter.js: the checks made
 * before a payment order is requested, and the amount asked for. The
 * handler only reads the trip, so it is a function of the loaded document.
 */
module PaymentRouter {
  import opened Wrappers
  import opened Schema
  import opened Ledger
  import TripRouter

  datatype OrderError =
    | TripNotFound
    | NotAvailable                       // the stored status is completed, cancelled or ongoing
    | SeatsUnavailable(availableSeats: int)  // "Only N seats are available."
    | OwnTrip

  /** What is handed to the payment provider, and what the response echoes. */
  datatype OrderRequest = OrderRequest(amount: int, currency: string, tripTitle: string)

  /** The amount in paise: rupees per person times seats times 100. */
  function AmountInPaise(pricePerPerson: nat, seatsBooked: int): (r: int)
    ensures r % 100 == 0 && r / 100 == pricePerPerson * seatsBooked
    ensures seatsBooked >= 0 ==> r >= 0
  {
    pricePerPerson * seatsBooked * 100
  }

  /**
   * The checks in the handler's order: the trip exists, it is open, the
   * seats fit (all bookings counted, equality allowed), and only then that
   * the caller is not the creator. `seatsBooked` is not validated here.
   */
  function CreateOrder(trip: Option<TripRecord>, actor: UserId, seatsBooked: int): (r: Result<OrderRequest, OrderError>)
    ensures trip.None? <==> r == Failure(TripNotFound)
    ensures r == Failure(NotAvailable) <==> trip.Some? && trip.value.status != Upcoming
    ensures r.Failure? && r.error.SeatsUnavailable? <==>
      trip.Some? && trip.value.status == Upcoming && seatsBooked > trip.value.seats - BookedSeats(trip.value.bookings)
    ensures r.Failure? && r.error.SeatsUnavailable? ==> r.error.availableSeats == trip.value.seats - BookedSeats(trip.value.bookings)
    ensures r == Failure(OwnTrip) <==>
      trip.Some? && trip.value.status == Upcoming && seatsBooked <= trip.value.seats - BookedSeats(trip.value.bookings)
      && trip.value.createdBy == actor
    ensures r.Success? <==>
      trip.Some? && trip.value.status == Upcoming && seatsBooked <= trip.value.seats - BookedSeats(trip.value.bookings)
      && trip.value.createdBy != actor
    ensures r.Success? ==>
      && r.value.amount == trip.value.pricePerPerson * seatsBooked * 100
      && r.value.currency == "INR" && r.value.tripTitle == trip.value.title
  {
    match trip
    case None => Failure(TripNotFound)
    case Some(t) =>
      if t.status == Completed || t.status == Cancelled || t.status == Ongoing then Failure(NotAvailable)
      else
        assert t.status == Upcoming;
        var availableSeats := AvailableSeats(t.seats, t.bookings);
        if seatsBooked > availableSeats then Failure(SeatsUnavailable(availableSeats))
        else if t.createdBy == actor then Failure(OwnTrip)
        else Success(OrderRequest(AmountInPaise(t.pricePerPerson, seatsBooked), "INR", t.title))
  }

  /**
   * An order that passes its checks, for a positive seat count and a user
   * without a booking, is followed by a join that passes too: both handlers
   * test the seats against all bookings with equality allowed.
   */
  lemma OrderSuccessAdmitsJoin(t: TripRecord, user: UserId, seatsBooked: int)
    requires CreateOrder(Some(t), user, seatsBooked).Success?
    requires seatsBooked >= 1 && !HasBookingBy(t.bookings, user)
    ensures TripRouter.JoinOutcome(Some(t), user, seatsBooked) == None
  {
  }

  /**
   * Order creation does not look at the caller's bookings: a user who already
   * holds one, of any status, gets an order while join answers AlreadyJoined.
   */
  lemma OrderIgnoresExistingBooking(t: TripRecord, user: UserId, seatsBooked: int)
    requires t.status == Upcoming && t.createdBy != user && HasBookingBy(t.bookings, user)
    requires 1 <= seatsBooked <= AvailableSeats(t.seats, t.bookings)
    ensures CreateOrder(Some(t), user, seatsBooked).Success?
    ensures TripRouter.JoinOutcome(Some(t), user, seatsBooked) == Some(TripRouter.AlreadyJoined)
  {
  }

  /** A creator asking for more seats than are free is told about the seats, not about owning the trip. */
  lemma CreatorOverbookingGetsSeatError(t: TripRecord, seatsBooked: int)
    requires t.status == Upcoming
    requires seatsBooked > t.seats - BookedSeats(t.bookings)
    ensures CreateOrder(Some(t), t.createdBy, seatsBooked) == Failure(SeatsUnavailable(t.seats - BookedSeats(t.bookings)))
  {
  }
}
