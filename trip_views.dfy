/**
 * The read-only projections of routes/triprouter.js: the open-trips listing
 * of GET /all, the creator's listing of GET /my-trips, and the per-booking
 * rows of GET /my-booking. Queries become filters over the trips returned.
 */
module TripViews {
  import opened Wrappers
  import opened Schema
  import opened Ledger

  /** A trip as a listing shows it: the document plus its free seats. */
  datatype TripSummary = TripSummary(trip: TripRecord, availableSeats: int)

  function Summarize(t: TripRecord): (s: TripSummary)
    ensures s.trip == t
    ensures s.availableSeats >= 0 <==> WithinCapacity(t.seats, t.bookings)
    ensures s.availableSeats + BookedSeats(t.bookings) == t.seats
  {
    TripSummary(t, AvailableSeats(t.seats, t.bookings))
  }

  /** The query of GET /all: someone else's trip that is upcoming or ongoing. */
  predicate IsOpenFor(t: TripRecord, user: UserId)
    ensures IsOpenFor(t, user) <==> t.createdBy != user && t.status !in {Completed, Cancelled}
  {
    t.createdBy != user && (t.status == Upcoming || t.status == Ongoing)
  }

  /** GET /all: the trips open for `user`, in the order returned, with their free seats. */
  function OpenTrips(trips: seq<TripRecord>, user: UserId): (r: seq<TripSummary>)
    ensures |r| <= |trips|
    ensures forall k :: 0 <= k < |r| ==> r[k].trip in trips && IsOpenFor(r[k].trip, user)
    ensures forall k :: 0 <= k < |r| ==> r[k] == Summarize(r[k].trip)
    ensures forall t :: t in trips && IsOpenFor(t, user) ==> Summarize(t) in r
  {
    if trips == [] then []
    else
      assert trips == [trips[0]] + trips[1..];
      var rest := OpenTrips(trips[1..], user);
      if IsOpenFor(trips[0], user) then [Summarize(trips[0])] + rest else rest
  }

  /** GET /my-trips: the trips `user` created, in the order returned, with their free seats. */
  function MyTrips(trips: seq<TripRecord>, user: UserId): (r: seq<TripSummary>)
    ensures |r| <= |trips|
    ensures forall k :: 0 <= k < |r| ==> r[k].trip in trips && r[k].trip.createdBy == user
    ensures forall k :: 0 <= k < |r| ==> r[k] == Summarize(r[k].trip)
    ensures forall t :: t in trips && t.createdBy == user ==> Summarize(t) in r
  {
    if trips == [] then []
    else
      assert trips == [trips[0]] + trips[1..];
      var rest := MyTrips(trips[1..], user);
      if trips[0].createdBy == user then [Summarize(trips[0])] + rest else rest
  }

  /** GET /all keeps the order of the trips and lists each kept trip once. */
  lemma {:induction false} OpenTripsConcat(a: seq<TripRecord>, b: seq<TripRecord>, user: UserId)
    ensures OpenTrips(a + b, user) == OpenTrips(a, user) + OpenTrips(b, user)
  {
    if a == [] {
      assert a + b == b;
    } else {
      var head := if IsOpenFor(a[0], user) then [Summarize(a[0])] else [];
      assert (a + b)[0] == a[0] && (a + b)[1..] == a[1..] + b;
      calc {
        OpenTrips(a + b, user);
        head + OpenTrips(a[1..] + b, user);
        { OpenTripsConcat(a[1..], b, user); }
        head + (OpenTrips(a[1..], user) + OpenTrips(b, user));
        OpenTrips(a, user) + OpenTrips(b, user);
      }
    }
  }

  /** A single trip is listed once, as its summary, exactly when it is open for `user`. */
  lemma OpenTripsSingle(t: TripRecord, user: UserId)
    ensures OpenTrips([t], user) == if IsOpenFor(t, user) then [Summarize(t)] else []
  {
    assert [t][1..] == [];
  }

  /** GET /my-trips keeps the order of the trips and lists each of the creator's trips once. */
  lemma {:induction false} MyTripsConcat(a: seq<TripRecord>, b: seq<TripRecord>, user: UserId)
    ensures MyTrips(a + b, user) == MyTrips(a, user) + MyTrips(b, user)
  {
    if a == [] {
      assert a + b == b;
    } else {
      var head := if a[0].createdBy == user then [Summarize(a[0])] else [];
      assert (a + b)[0] == a[0] && (a + b)[1..] == a[1..] + b;
      calc {
        MyTrips(a + b, user);
        head + MyTrips(a[1..] + b, user);
        { MyTripsConcat(a[1..], b, user); }
        head + (MyTrips(a[1..], user) + MyTrips(b, user));
        MyTrips(a, user) + MyTrips(b, user);
      }
    }
  }

  /** A single trip is listed once, as its summary, exactly when `user` created it. */
  lemma MyTripsSingle(t: TripRecord, user: UserId)
    ensures MyTrips([t], user) == if t.createdBy == user then [Summarize(t)] else []
  {
    assert [t][1..] == [];
  }

  /** Trips that keep the seat invariant are never listed with negative free seats. */
  lemma {:induction false} OpenTripsSeatsNonNegative(trips: seq<TripRecord>, user: UserId)
    requires forall t :: t in trips ==> WithinCapacity(t.seats, t.bookings)
    ensures forall k :: 0 <= k < |OpenTrips(trips, user)| ==> OpenTrips(trips, user)[k].availableSeats >= 0
  {
  }

  const MsPerDay: int := 1000 * 60 * 60 * 24

  /** `Math.ceil((startDate - now) / MsPerDay)`: whole days to the start, rounded up. */
  function DaysUntil(startDate: Time, now: Time): (d: int)
    ensures (d - 1) * MsPerDay < startDate - now <= d * MsPerDay
    ensures d > 0 <==> startDate > now
  {
    var x := startDate - now;
    if x % MsPerDay == 0 then x / MsPerDay else x / MsPerDay + 1
  }

  /** One row of GET /my-booking. */
  datatype MyBookingView = MyBookingView(
    bookingId: BookingId,
    tripId: TripId,
    title: string,
    from: string,
    to: string,
    startDate: Time,
    endDate: Time,
    image: string,
    modeOfTransport: Option<Transport>,
    createdBy: UserId,
    pricePerPerson: nat,
    availableSeats: int,
    mySeatsBooked: nat,
    daysLeft: int,
    status: BookingStatus,
    isUpcoming: bool,
    isPast: bool,
    isCancelled: bool)

  /**
   * The row for booking `b` of trip `t`. The comparisons of the booking's
   * status with "completed" and "cancelled" can never hold, since a booking
   * is pending, accepted or rejected, so they drop out.
   */
  function BookingView(t: TripRecord, b: Booking, now: Time): (v: MyBookingView)
    ensures v.bookingId == b.id && v.tripId == t.id && v.status == b.status && v.mySeatsBooked == b.seatsBooked
    ensures v.availableSeats == t.seats - BookedSeats(t.bookings)
    ensures v.daysLeft == if DaysUntil(t.startDate, now) > 0 then DaysUntil(t.startDate, now) else 0
    ensures v.daysLeft >= 0
    ensures v.daysLeft > 0 <==> t.startDate > now
    ensures v.isUpcoming <==> t.startDate > now && t.status == Upcoming
    ensures v.isPast <==> t.endDate < now || t.status == Completed
    ensures v.isCancelled <==> t.status == Cancelled || b.status == Rejected
  {
    var daysLeft := DaysUntil(t.startDate, now);
    MyBookingView(
      bookingId := b.id,
      tripId := t.id,
      title := t.title,
      from := t.from,
      to := t.to,
      startDate := t.startDate,
      endDate := t.endDate,
      image := t.image,
      modeOfTransport := t.modeOfTransport,
      createdBy := t.createdBy,
      pricePerPerson := t.pricePerPerson,
      availableSeats := AvailableSeats(t.seats, t.bookings),
      mySeatsBooked := b.seatsBooked,
      daysLeft := if daysLeft > 0 then daysLeft else 0,
      status := b.status,
      isUpcoming := daysLeft > 0 && t.status == Upcoming,
      isPast := t.endDate < now || t.status == Completed,
      isCancelled := t.status == Cancelled || b.status == Rejected)
  }

  /** The rows of one trip: its bookings by `user`, in booking order. */
  function UserBookingViews(t: TripRecord, bs: seq<Booking>, user: UserId, now: Time): (r: seq<MyBookingView>)
    ensures |r| <= |bs|
    ensures !HasBookingBy(bs, user) ==> r == []
    ensures forall k :: 0 <= k < |r| ==> exists j :: 0 <= j < |bs| && bs[j].user == user && r[k] == BookingView(t, bs[j], now)
    ensures forall j :: 0 <= j < |bs| && bs[j].user == user ==> BookingView(t, bs[j], now) in r
  {
    if bs == [] then []
    else
      var rest := UserBookingViews(t, bs[1..], user, now);
      assert forall j :: 1 <= j < |bs| ==> bs[1..][j - 1] == bs[j];
      if bs[0].user == user then [BookingView(t, bs[0], now)] + rest else rest
  }

  /** GET /my-booking: `trips.flatMap` of each trip's rows for `user`. */
  function MyBookings(trips: seq<TripRecord>, user: UserId, now: Time): (r: seq<MyBookingView>)
    ensures forall i, j ::
              0 <= i < |trips| && 0 <= j < |trips[i].bookings| && trips[i].bookings[j].user == user ==>
              BookingView(trips[i], trips[i].bookings[j], now) in r
  {
    if trips == [] then []
    else
      assert forall i :: 1 <= i < |trips| ==> trips[1..][i - 1] == trips[i];
      UserBookingViews(trips[0], trips[0].bookings, user, now) + MyBookings(trips[1..], user, now)
  }

  /** The rows of one trip keep the booking order and give each booking of `user` one row. */
  lemma {:induction false} UserBookingViewsConcat(t: TripRecord, a: seq<Booking>, b: seq<Booking>, user: UserId, now: Time)
    ensures UserBookingViews(t, a + b, user, now) == UserBookingViews(t, a, user, now) + UserBookingViews(t, b, user, now)
  {
    if a != [] {
      assert (a + b)[1..] == a[1..] + b;
      UserBookingViewsConcat(t, a[1..], b, user, now);
    } else {
      assert a + b == b;
    }
  }

  /** A single booking gives its row exactly when it is the caller's. */
  lemma UserBookingViewsSingle(t: TripRecord, b: Booking, user: UserId, now: Time)
    ensures UserBookingViews(t, [b], user, now) == if b.user == user then [BookingView(t, b, now)] else []
  {
    assert [b][1..] == [];
  }

  /** GET /my-booking lists the trips' rows trip after trip, in the order of the trips. */
  lemma {:induction false} MyBookingsConcat(a: seq<TripRecord>, b: seq<TripRecord>, user: UserId, now: Time)
    ensures MyBookings(a + b, user, now) == MyBookings(a, user, now) + MyBookings(b, user, now)
  {
    if a == [] {
      assert a + b == b;
    } else {
      var head := UserBookingViews(a[0], a[0].bookings, user, now);
      assert (a + b)[0] == a[0] && (a + b)[1..] == a[1..] + b;
      calc {
        MyBookings(a + b, user, now);
        head + MyBookings(a[1..] + b, user, now);
        { MyBookingsConcat(a[1..], b, user, now); }
        head + (MyBookings(a[1..], user, now) + MyBookings(b, user, now));
        MyBookings(a, user, now) + MyBookings(b, user, now);
      }
    }
  }

  /** A single trip contributes exactly its own rows for the caller. */
  lemma MyBookingsSingle(t: TripRecord, user: UserId, now: Time)
    ensures MyBookings([t], user, now) == UserBookingViews(t, t.bookings, user, now)
  {
    assert [t][1..] == [];
  }

  /** With one booking per user, a trip gives one row if the caller holds a booking, and none otherwise. */
  lemma {:induction false} UserBookingViewsAtMostOne(t: TripRecord, bs: seq<Booking>, user: UserId, now: Time)
    requires UsersDistinct(bs)
    ensures |UserBookingViews(t, bs, user, now)| == if HasBookingBy(bs, user) then 1 else 0
  {
    if bs != [] && bs[0].user == user {
      var tail := bs[1..];
      forall j | 0 <= j < |tail| ensures tail[j].user != user {
        assert tail[j] == bs[j + 1];
      }
    } else if bs != [] {
      UserBookingViewsAtMostOne(t, bs[1..], user, now);
      if HasBookingBy(bs, user) {
        var j :| 0 <= j < |bs| && bs[j].user == user;
        assert bs[1..][j - 1] == bs[j];
      }
    }
  }

  /** Trips that keep one booking per user give the caller at most one row each. */
  lemma {:induction false} MyBookingsAtMostOnePerTrip(trips: seq<TripRecord>, user: UserId, now: Time)
    requires forall i :: 0 <= i < |trips| ==> UsersDistinct(trips[i].bookings)
    ensures |MyBookings(trips, user, now)| <= |trips|
  {
    if trips != [] {
      UserBookingViewsAtMostOne(trips[0], trips[0].bookings, user, now);
      MyBookingsAtMostOnePerTrip(trips[1..], user, now);
    }
  }

  /** `v` is the row of some booking of `user` in one of `trips`. */
  ghost predicate IsRowOf(trips: seq<TripRecord>, user: UserId, now: Time, v: MyBookingView)
  {
    exists i, j :: 0 <= i < |trips| && 0 <= j < |trips[i].bookings|
      && trips[i].bookings[j].user == user && v == BookingView(trips[i], trips[i].bookings[j], now)
  }

  /** Every row of GET /my-booking is the row of one of the caller's own bookings. */
  lemma {:induction false} MyBookingsRows(trips: seq<TripRecord>, user: UserId, now: Time)
    ensures forall k :: 0 <= k < |MyBookings(trips, user, now)| ==> IsRowOf(trips, user, now, MyBookings(trips, user, now)[k])
  {
    if trips != [] {
      MyBookingsRows(trips[1..], user, now);
      var head := UserBookingViews(trips[0], trips[0].bookings, user, now);
      var rest := MyBookings(trips[1..], user, now);
      var r := MyBookings(trips, user, now);
      assert r == head + rest;
      forall k | 0 <= k < |r| ensures IsRowOf(trips, user, now, r[k]) {
        if k < |head| {
          var j :| 0 <= j < |trips[0].bookings| && trips[0].bookings[j].user == user
                   && head[k] == BookingView(trips[0], trips[0].bookings[j], now);
          assert r[k] == head[k];
        } else {
          assert r[k] == rest[k - |head|];
          assert IsRowOf(trips[1..], user, now, rest[k - |head|]);
          var i, j :| 0 <= i < |trips[1..]| && 0 <= j < |trips[1..][i].bookings|
            && trips[1..][i].bookings[j].user == user && rest[k - |head|] == BookingView(trips[1..][i], trips[1..][i].bookings[j], now);
          assert trips[1..][i] == trips[i + 1];
        }
      }
    }
  }
}
