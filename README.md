# Trip planner backend: trip lifecycle and seat booking

This project models the core of a trip-sharing backend (Express + MongoDB).
Users create trips with a fixed number of seats. Other users ask to join with
a number of seats. The creator accepts or rejects each booking, and passengers
cancel their own bookings. Every save of a trip recomputes its status
(upcoming, ongoing, completed, cancelled) from its dates, and a midnight job
saves every trip. The model covers:

- `Schema` (db.js): the enums, the embedded booking, the trip document as a
  class whose `Save` runs the pre-save status hook, and `DeriveStatus`, the
  decision of that hook.
- `Ledger` (routes/triprouter.js): the seat sum, the booking lookups, the two
  in-place edits of the bookings array, and the trip invariant. The invariant
  says four things: the seats of all bookings fit in the trip, no user holds
  two bookings, no two bookings share an id, and the creator holds none.
- `TripRouter` (routes/triprouter.js): create, join, cancel-trip,
  cancel-booking, accept and reject. Create takes the stored trips and returns
  a new `Trip`. The other five are methods on the loaded `Trip` (`null` when
  `findById` found nothing). Each of those five ties the error it returns to a
  pure outcome function, states the new bookings and status, and shows that
  the invariant is kept.
- `CreateHelpers`, `TripViews` (routes/triprouter.js): phone cleaning, the
  forecast window, and the `/all`, `/my-trips` and `/my-booking` projections.
- `PaymentRouter` (routes/paymentRouter.js): the create-order checks and the
  amount, as a function of the loaded trip. It writes nothing back.
- `Sweep` (server.js): the midnight loop that saves every trip, each at the
  instant of its own save.
- `AdminReport` (routes/admin.js): the flattened booking report and its
  optional status filter.

Time is an integer number of milliseconds. Ids are naturals compared only for
equality. Prices are whole rupees.

Where the code departs from the intended design of the system, the model
follows the code:

- Status is derived from full timestamps, not calendar dates.
- Cancelling a trip is undone by the next save once the trip has started or
  ended (`Schema.CancelUndoneOnceStarted`). Cancelled is not terminal.
- Booked seats count every booking, rejected ones included.
- Accept and reject have no "must be pending" check. They overwrite any
  status.
- Join and create-order test the stored status, not a freshly derived one.
- The forecast is computed at creation, but the trip schema has no field for
  it, so it is never stored. `CreateHelpers.Forecast` models the filter alone.

## Model

| member | source | states |
|---|---|---|
| `Schema.DeriveStatus` | db.js:39-50 | completed iff end < now; ongoing iff start <= now <= end; cancelled survives iff now is before both dates; otherwise upcoming |
| `Schema.DeriveIdempotent` | db.js:39-50 | deriving again at the same instant changes nothing |
| `Schema.CancelUndoneOnceStarted` | db.js:42-48 | once start <= now or end < now, a cancelled trip derives exactly what an upcoming one does, never cancelled |
| `Schema.DeriveMonotone` | db.js:42-48 | for a non-cancelled prior status the rank upcoming < ongoing < completed never decreases as now grows, for any dates |
| `Schema.Trip.constructor` | db.js:27-36 | a new document has no bookings and the default status upcoming |
| `Schema.Trip.Save` | db.js:39-50 | the hook sets status to DeriveStatus of the old status; no other field changes |
| `Ledger.BookedSeats` | routes/triprouter.js:154 | the `reduce` over all bookings, whatever their status: the last booking's seats are part of the total |
| `Ledger.BookedSeatsCoversEach` | routes/triprouter.js:154 | no booking's seats, of any status, exceed the total |
| `Ledger.HasBookingBy` | routes/triprouter.js:193 | the `some`: true iff the user is among the users of the bookings |
| `Ledger.BookedSeatsConcat` | routes/triprouter.js:198 | the seat sum of two booking lists joined is the sum of their sums |
| `Ledger.BookedSeatsPointwise` | routes/triprouter.js:198 | lists with equal seats position by position have equal sums |
| `Ledger.BookedSeatsRemoveAt` | routes/triprouter.js:330 | splicing out a booking lowers the sum by exactly its seats |
| `Ledger.BookedSeatsWithStatusAt` | routes/triprouter.js:364 | changing a booking's status leaves the sum unchanged |
| `Ledger.IndexOfUser` | routes/triprouter.js:325 | -1 iff the user has no booking, else the index of the user's first booking |
| `Ledger.IndexOfId` | routes/triprouter.js:358 | -1 iff no booking has the id, else the first booking with it |
| `Ledger.RemoveAt` | routes/triprouter.js:330 | one booking fewer; those before stay put, those after shift down by one |
| `Ledger.WithStatusAt` | routes/triprouter.js:364 | only the status of the chosen booking changes |
| `Ledger.AvailableSeatsNonNegative` | routes/triprouter.js:154-157 | under the invariant, seats minus booked seats is never negative |
| `Ledger.AppendKeepsInvariant` | routes/triprouter.js:189-203 | appending a booking with a fresh id that passes the creator, duplicate and seat checks keeps the invariant |
| `Ledger.RemoveKeepsInvariant` | routes/triprouter.js:325-330 | removing any booking keeps the invariant |
| `Ledger.WithStatusKeepsInvariant` | routes/triprouter.js:358-364 | setting any booking's status keeps the invariant |
| `Ledger.RemoveOwnBookingFreesUser` | routes/triprouter.js:325-330 | with one booking per user, after cancel-booking the user has no booking left and may join again |
| `CreateHelpers.CleanPhone` | routes/triprouter.js:79 | the result holds only digits and '+', each as often as in the input |
| `CreateHelpers.CleanPhoneIsSubsequence` | routes/triprouter.js:79 | the cleaned number is a subsequence of the input |
| `CreateHelpers.InWindow` | routes/triprouter.js:106-110 | keeps exactly the items with start <= time <= end |
| `CreateHelpers.InWindowConcat` | routes/triprouter.js:106-110 | the filter of two joined lists is the two filters joined: input order is kept |
| `CreateHelpers.InWindowSingle` | routes/triprouter.js:106-110 | one item is kept once iff its time lies in the window |
| `CreateHelpers.Forecast` | routes/triprouter.js:100-122 | a failed lookup, or an in-window item without weather, gives []; otherwise one entry per in-window item, in order, with its date, temperature, description and icon |
| `TripRouter.HasSameTrip` | routes/triprouter.js:87-95 | true iff some stored trip of the creator has the same from, to, start and end |
| `TripRouter.ValidatePhone` | routes/triprouter.js:79-85 | creation fails with PhoneTooShort iff the cleaned number is shorter than 10; otherwise the cleaned number is kept |
| `TripRouter.CreateTrip` | routes/triprouter.js:78-137 | fails on a short phone, then on a duplicate route and dates of the same creator; otherwise a fresh trip with no bookings, the cleaned phone and status DeriveStatus(upcoming, ...), satisfying the invariant |
| `TripRouter.JoinOutcome` | routes/triprouter.js:171-201 | the join errors in order: invalid seats, no trip, status not upcoming, own trip, any existing booking, sum of all seats + n > seats; success iff none applies |
| `TripRouter.JoinKeepsInvariant` | routes/triprouter.js:193-203 | a join with a fresh booking id that passes its checks keeps the invariant, whatever the new status |
| `TripRouter.Join` | routes/triprouter.js:169-212 | on error nothing changes; on success exactly one pending booking is appended at the end, then the status is re-derived; with a fresh booking id the invariant is kept |
| `TripRouter.CancelTripOutcome` | routes/triprouter.js:296-304 | not found, then not the creator; success iff the actor created the trip |
| `TripRouter.CancelTrip` | routes/triprouter.js:292-315 | on success the status becomes DeriveStatus(cancelled, ...), bookings unchanged; on error nothing changes |
| `TripRouter.CancelBookingOutcome` | routes/triprouter.js:321-328 | not found, then no booking by the caller; the trip's status is not checked |
| `TripRouter.CancelBookingKeepsInvariant` | routes/triprouter.js:325-331 | removing a booking keeps the trip invariant |
| `TripRouter.CancelBooking` | routes/triprouter.js:316-338 | on success exactly the caller's first booking is spliced out, the rest keep their order, the status is re-derived |
| `TripRouter.DecisionOutcome` | routes/triprouter.js:350-361 | not found, then not the creator, then no booking with the id; no check of the booking's status |
| `TripRouter.DecisionKeepsInvariant` | routes/triprouter.js:358-365 | changing a booking's status keeps the trip invariant |
| `TripRouter.Decide` | routes/triprouter.js:350-365 | on success the first booking with the id gets the new status whatever it was; nothing else in the bookings changes |
| `TripRouter.Accept` | routes/triprouter.js:339-365 | Decide with accepted: a rejected booking can be accepted too |
| `TripRouter.Reject` | routes/triprouter.js:400-422 | Decide with rejected: an accepted booking can be rejected too |
| `TripViews.Summarize` | routes/triprouter.js:153-158 | a listing row carries the trip; its free seats plus the booked seats give the trip's seats, and are non-negative iff the bookings fit |
| `TripViews.IsOpenFor` | routes/triprouter.js:152 | the query: not created by the caller, and neither completed nor cancelled |
| `TripViews.OpenTrips` | routes/triprouter.js:152-159 | exactly the upcoming or ongoing trips not created by the caller, each with its free seats |
| `TripViews.OpenTripsConcat` | routes/triprouter.js:152-159 | the listing of two joined trip lists is the two listings joined: order kept |
| `TripViews.OpenTripsSingle` | routes/triprouter.js:152-159 | one trip is listed once, as its summary, iff it is open for the caller |
| `TripViews.MyTrips` | routes/triprouter.js:216-225 | exactly the caller's own trips, each with its free seats |
| `TripViews.MyTripsConcat` | routes/triprouter.js:216-225 | the listing of two joined trip lists is the two listings joined: order kept |
| `TripViews.MyTripsSingle` | routes/triprouter.js:216-225 | one trip is listed once, as its summary, iff the caller created it |
| `TripViews.OpenTripsSeatsNonNegative` | routes/triprouter.js:154-157 | trips within capacity never list negative free seats |
| `TripViews.DaysUntil` | routes/triprouter.js:249-251 | the integer ceiling of (start - now) / one day; positive iff start > now |
| `TripViews.BookingView` | routes/triprouter.js:246-281 | daysLeft is DaysUntil clamped at 0, so >= 0 and positive iff start > now; isUpcoming iff start > now and the trip is upcoming; isPast iff end < now or completed; isCancelled iff the trip is cancelled or the booking rejected |
| `TripViews.UserBookingViews` | routes/triprouter.js:244-246 | only the caller's bookings yield rows, and each of them yields its BookingView; none when the caller has none |
| `TripViews.UserBookingViewsConcat` | routes/triprouter.js:244-246 | the rows of two joined booking lists are the two row lists joined: booking order kept |
| `TripViews.UserBookingViewsSingle` | routes/triprouter.js:244-246 | one booking gives exactly one row iff it is the caller's |
| `TripViews.UserBookingViewsAtMostOne` | routes/triprouter.js:243-246 | with one booking per user, a trip yields one row if the caller holds a booking and none otherwise |
| `TripViews.MyBookings` | routes/triprouter.js:243-283 | every booking of the caller in any of the trips appears as its BookingView |
| `TripViews.MyBookingsConcat` | routes/triprouter.js:243 | the `flatMap`: the rows of two joined trip lists are the two row lists joined |
| `TripViews.MyBookingsSingle` | routes/triprouter.js:243-246 | one trip contributes exactly its own rows for the caller |
| `TripViews.MyBookingsAtMostOnePerTrip` | routes/triprouter.js:243-283 | with one booking per user in every trip, there are at most as many rows as trips |
| `TripViews.MyBookingsRows` | routes/triprouter.js:243-283 | every row is the BookingView of one of the caller's own bookings |
| `PaymentRouter.CreateOrder` | routes/paymentRouter.js:11-40 | not found, then not upcoming, then seatsBooked > seats - all booked (equality allowed), then own trip; success gives amount price * seats * 100 in INR; the trip is only read |
| `PaymentRouter.AmountInPaise` | routes/paymentRouter.js:40 | a whole number of paise, 100 per rupee of price * seats; not negative for a non-negative seat count |
| `PaymentRouter.OrderSuccessAdmitsJoin` | routes/paymentRouter.js:11-40 | a successful order for n >= 1 seats by a user without a booking is followed by a join that passes |
| `PaymentRouter.OrderIgnoresExistingBooking` | routes/paymentRouter.js:11-40 | a user who already holds a booking, of any status, gets an order while join answers AlreadyJoined |
| `PaymentRouter.CreatorOverbookingGetsSeatError` | routes/paymentRouter.js:28-38 | a creator asking for too many seats gets the seat error, not the own-trip error |
| `Sweep.Swept` | server.js:17-18 | a swept trip differs from the old one at most in status, which is DeriveStatus of the old status |
| `Sweep.SweptIdempotent` | server.js:16-20 | sweeping twice at the same instant equals sweeping once |
| `Sweep.SweepKeepsCancelledIff` | server.js:17-18 | a cancelled trip stays cancelled iff now is before both its dates |
| `Sweep.MidnightSweep` | server.js:15-21 | saves the trips one after another; afterwards each trip is Swept of its old self at the instant of its own save |
| `AdminReport.RowOf` | routes/admin.js:38-49 | a row copies the booking's user, seats and status beside its trip's title, status, creator and price |
| `AdminReport.Matches` | routes/admin.js:37 | no filter matches every booking; a filter that is not a booking status matches none |
| `AdminReport.TripRows` | routes/admin.js:36-50 | every row of a trip carries that trip's title and creator |
| `AdminReport.TripRowsAtMost` | routes/admin.js:36-50 | a trip gives at most one row per booking |
| `AdminReport.ReportRows` | routes/admin.js:35-50 | at most one row per booking over all trips |
| `AdminReport.MatchingTrips` | routes/admin.js:28-30 | the trips with a booking of the wanted status, or with any booking when there is no filter |
| `AdminReport.TripRowsEmpty` | routes/admin.js:36-37 | a trip without matching bookings adds no rows |
| `AdminReport.ReportRowsSnoc` | routes/admin.js:35-36 | a further trip's rows come after all rows of the trips before it |
| `AdminReport.ReportRowsConcat` | routes/admin.js:35-36 | rows are grouped by trip in trip order |
| `AdminReport.QueryDropsNoRows` | routes/admin.js:29-37 | narrowing by the query's match condition drops no row |
| `AdminReport.TripRowsFiltered` | routes/admin.js:37 | with a filter every row of a trip has that booking status |
| `AdminReport.ReportRowsFiltered` | routes/admin.js:37 | with a filter every report row has that booking status |
| `AdminReport.TripRowsUnfiltered` | routes/admin.js:36-50 | without a filter a trip gives one row per booking, in booking order, each copying the trip's title, route, dates, status, creator and price and the booking's user, seats and status |
| `AdminReport.ReportRowsUnfilteredCount` | routes/admin.js:34-37 | without a filter there are exactly as many rows as bookings over all trips |
| `AdminReport.BookingReport` | routes/admin.js:26-63 | the "No bookings found" answer iff there are no rows; otherwise the rows of the trips in order and their count |

## Left out

- Express routing, HTTP status codes and JSON bodies: only the error kinds remain.
- MongoDB persistence. `findById` becomes a `Trip?` parameter, and a query becomes a filter over a sequence of trip values.
- `populate`: e-mail addresses are replaced by the user ids they are looked up from.
- Exceptions that reach the catch-all 500 handlers, such as database errors and a missing populated user.
- The ObjectId of a new booking: it is a parameter of `Join`. The invariant's distinct ids are kept when it is fresh, which ObjectId generation ensures.
- GET /search-places, its Google Places calls and its module-level cache: network I/O.
- The OpenWeather request: its outcome is a parameter of `Forecast`. Parsing `dt_txt` is also left out, since each item carries its time already parsed.
- The Razorpay order call, its receipt built from `Date.now()`, and the response's key and order id: a foreign service. The model stops at the order request.
- The e-mails sent after accept and reject (utils/sendmail.js), and the chatbot (routes/Chatbot.js): foreign services.
- JWT and bcrypt authentication, the user routes and the admin middleware: the actor id is given to each operation.
- The admin `/users` and `/trips` listings: plain projections of stored documents.
- The Zod schema of trip creation and `Date.parse`: a `TripRequest` is already valid. The join body's schema is modelled as `InvalidInput`.
- Cron scheduling and console logging. Each save's clock reading is a parameter of `MidnightSweep`.
- Sweep.MidnightSweep: assumes every save succeeds. The cron callback has no catch, so a save that fails ends the loop and the later trips stay unsaved; database failures are not modelled.
- Concurrent requests on one trip, and the lost updates they can cause: every operation is atomic, and operations run one after another.
- Floating point. Prices and temperatures are integers, and `Math.ceil` of a float quotient becomes an integer ceiling, which agrees with it for realistic date differences.
- The `createdAt`/`updatedAt` timestamps.
- PaymentRouter.CreateOrder: assumes `seatsBooked` is an integer. JavaScript's comparisons on strings or undefined are not modelled.
