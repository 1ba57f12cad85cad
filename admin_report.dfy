/**
 * GET /bookings of routes/admin.js: every booking of every trip flattened
 * into one row list, optionally only those of one status, with the count.
 */
module AdminReport {
  import opened Schema

  /**
   * One report row. `bookedBy` and `tripCreator` are the user ids whose
   * e-mail addresses the handler fills in through `populate`.
   */
  datatype Row = Row(
    tripTitle: string,
    from: string,
    to: string,
    startDate: Time,
    endDate: Time,
    tripStatus: TripStatus,
    bookedBy: UserId,
    seatsBooked: nat,
    bookingStatus: BookingStatus,
    tripCreator: UserId,
    pricePerPerson: nat)

  /** The response: the "No bookings found" message, or the rows with their count. */
  datatype Report = NoBookings | Bookings(count: nat, rows: seq<Row>)

  /** One row per booking: the booking's user, seats and status beside its trip's fields. */
  function RowOf(t: TripRecord, b: Booking): (r: Row)
    ensures (r.bookedBy, r.seatsBooked, r.bookingStatus) == (b.user, b.seatsBooked, b.status)
    ensures (r.tripTitle, r.tripStatus, r.tripCreator, r.pricePerPerson) == (t.title, t.status, t.createdBy, t.pricePerPerson)
  {
    Row(t.title, t.from, t.to, t.startDate, t.endDate, t.status, b.user, b.seatsBooked, b.status,
        t.createdBy, t.pricePerPerson)
  }

  /**
   * `!status || booking.status === status`: the `status` query parameter,
   * with the empty string standing for an absent one.
   */
  predicate Matches(filter: string, b: Booking)
    ensures filter == "" ==> Matches(filter, b)
    ensures filter !in {"", "pending", "accepted", "rejected"} ==> !Matches(filter, b)
  {
    filter == "" || BookingStatusName(b.status) == filter
  }

  /** The rows of the first `n` bookings of trip `t`. */
  function TripRows(t: TripRecord, n: nat, filter: string): (r: seq<Row>)
    requires n <= |t.bookings|
    ensures forall k :: 0 <= k < |r| ==> r[k].tripTitle == t.title && r[k].tripCreator == t.createdBy
  {
    if n == 0 then []
    else TripRows(t, n - 1, filter) + (if Matches(filter, t.bookings[n - 1]) then [RowOf(t, t.bookings[n - 1])] else [])
  }

  /** A trip gives at most one row per booking. */
  lemma {:induction false} TripRowsAtMost(t: TripRecord, n: nat, filter: string)
    requires n <= |t.bookings|
    ensures |TripRows(t, n, filter)| <= n
  {
    if n > 0 {
      TripRowsAtMost(t, n - 1, filter);
    }
  }

  /** The number of bookings over all trips. */
  function TotalBookings(trips: seq<TripRecord>): nat
  {
    if trips == [] then 0 else TotalBookings(trips[..|trips| - 1]) + |trips[|trips| - 1].bookings|
  }

  /** The rows of the trips in `trips`, trip by trip, each in booking order. */
  function ReportRows(trips: seq<TripRecord>, filter: string): (r: seq<Row>)
    ensures |r| <= TotalBookings(trips)
  {
    if trips == [] then []
    else
      TripRowsAtMost(trips[|trips| - 1], |trips[|trips| - 1].bookings|, filter);
      ReportRows(trips[..|trips| - 1], filter) + TripRows(trips[|trips| - 1], |trips[|trips| - 1].bookings|, filter)
  }

  /** The query's match condition: some booking of the wanted status, or any booking at all. */
  predicate TripMatches(filter: string, t: TripRecord)
  {
    exists j :: 0 <= j < |t.bookings| && Matches(filter, t.bookings[j])
  }

  /** `tripModel.find(matchCondition)`: the matching trips, in stored order. */
  function MatchingTrips(trips: seq<TripRecord>, filter: string): (r: seq<TripRecord>)
    ensures forall t :: t in r <==> t in trips && TripMatches(filter, t)
  {
    if trips == [] then []
    else
      var last := trips[|trips| - 1];
      assert trips == trips[..|trips| - 1] + [last];
      MatchingTrips(trips[..|trips| - 1], filter) + if TripMatches(filter, last) then [last] else []
  }

  /** A trip without a matching booking adds no rows. */
  lemma {:induction false} TripRowsEmpty(t: TripRecord, n: nat, filter: string)
    requires n <= |t.bookings|
    requires forall j :: 0 <= j < n ==> !Matches(filter, t.bookings[j])
    ensures TripRows(t, n, filter) == []
  {
    if n > 0 {
      TripRowsEmpty(t, n - 1, filter);
      assert TripRows(t, n, filter) == TripRows(t, n - 1, filter) + [];
    }
  }

  lemma ReportRowsSnoc(trips: seq<TripRecord>, t: TripRecord, filter: string)
    ensures ReportRows(trips + [t], filter) == ReportRows(trips, filter) + TripRows(t, |t.bookings|, filter)
  {
    var s := trips + [t];
    assert s[..|s| - 1] == trips && s[|s| - 1] == t;
  }

  /** The report lists the rows of the trips in order, trip after trip. */
  lemma {:induction false} ReportRowsConcat(a: seq<TripRecord>, b: seq<TripRecord>, filter: string)
    ensures ReportRows(a + b, filter) == ReportRows(a, filter) + ReportRows(b, filter)
  {
    if b == [] {
      assert a + b == a;
    } else {
      var b' := b[..|b| - 1];
      var last := b[|b| - 1];
      var lastRows := TripRows(last, |last.bookings|, filter);
      calc {
        ReportRows(a + b, filter);
        { assert a + b == (a + b') + [last]; }
        ReportRows((a + b') + [last], filter);
        { ReportRowsSnoc(a + b', last, filter); }
        ReportRows(a + b', filter) + lastRows;
        { ReportRowsConcat(a, b', filter); }
        ReportRows(a, filter) + ReportRows(b', filter) + lastRows;
        { ReportRowsSnoc(b', last, filter); assert b' + [last] == b; }
        ReportRows(a, filter) + ReportRows(b, filter);
      }
    }
  }

  /** Narrowing the trips by the query's match condition changes no row. */
  lemma {:induction false} QueryDropsNoRows(trips: seq<TripRecord>, filter: string)
    ensures ReportRows(MatchingTrips(trips, filter), filter) == ReportRows(trips, filter)
  {
    if trips != [] {
      var init := trips[..|trips| - 1];
      var last := trips[|trips| - 1];
      QueryDropsNoRows(init, filter);
      var kept := if TripMatches(filter, last) then [last] else [];
      ReportRowsConcat(MatchingTrips(init, filter), kept, filter);
      if !TripMatches(filter, last) {
        TripRowsEmpty(last, |last.bookings|, filter);
      } else {
        assert ReportRows([last], filter) == ReportRows([], filter) + TripRows(last, |last.bookings|, filter);
      }
    }
  }

  /** With a status filter, every row has that status. */
  lemma {:induction false} TripRowsFiltered(t: TripRecord, n: nat, filter: string)
    requires n <= |t.bookings|
    ensures forall k :: 0 <= k < |TripRows(t, n, filter)| ==>
      filter == "" || BookingStatusName(TripRows(t, n, filter)[k].bookingStatus) == filter
  {
    if n > 0 {
      TripRowsFiltered(t, n - 1, filter);
    }
  }

  lemma {:induction false} ReportRowsFiltered(trips: seq<TripRecord>, filter: string)
    ensures forall k :: 0 <= k < |ReportRows(trips, filter)| ==>
      filter == "" || BookingStatusName(ReportRows(trips, filter)[k].bookingStatus) == filter
  {
    if trips != [] {
      var last := trips[|trips| - 1];
      ReportRowsFiltered(trips[..|trips| - 1], filter);
      TripRowsFiltered(last, |last.bookings|, filter);
    }
  }

  /** Without a filter, trip `t` contributes a row for each of its first `n` bookings, in order. */
  lemma {:induction false} TripRowsUnfiltered(t: TripRecord, n: nat)
    requires n <= |t.bookings|
    ensures |TripRows(t, n, "")| == n
    ensures forall j :: 0 <= j < n ==> TripRows(t, n, "")[j] == RowOf(t, t.bookings[j])
  {
    if n > 0 {
      TripRowsUnfiltered(t, n - 1);
    }
  }

  /** Without a filter, the report has exactly one row per booking. */
  lemma {:induction false} ReportRowsUnfilteredCount(trips: seq<TripRecord>)
    ensures |ReportRows(trips, "")| == TotalBookings(trips)
  {
    if trips != [] {
      var last := trips[|trips| - 1];
      ReportRowsUnfilteredCount(trips[..|trips| - 1]);
      TripRowsUnfiltered(last, |last.bookings|);
    }
  }

  /**
   * The handler: run the query, then the nested `forEach` loops that push
   * one row per matching booking, then answer with the rows or the message.
   */
  method BookingReport(trips: seq<TripRecord>, filter: string) returns (report: Report)
    ensures report == NoBookings <==> ReportRows(trips, filter) == []
    ensures report.Bookings? ==> report.rows == ReportRows(trips, filter) && report.count == |report.rows|
  {
    var found := MatchingTrips(trips, filter);
    var allBookings: seq<Row> := [];
    for i := 0 to |found|
      invariant allBookings == ReportRows(found[..i], filter)
    {
      var trip := found[i];
      for j := 0 to |trip.bookings|
        invariant allBookings == ReportRows(found[..i], filter) + TripRows(trip, j, filter)
      {
        var booking := trip.bookings[j];
        if Matches(filter, booking) {
          allBookings := allBookings + [RowOf(trip, booking)];
        }
      }
      assert found[..i + 1][..i] == found[..i];
    }
    assert found[..|found|] == found;
    QueryDropsNoRows(trips, filter);
    if |allBookings| == 0 {
      report := NoBookings;
    } else {
      report := Bookings(|allBookings|, allBookings);
    }
  }
}
