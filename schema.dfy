/**
 * The trip document of db.js: its enums and defaults, the bookings embedded
 * in it, and the pre-save hook that recomputes the trip's status.
 */
module Schema {
  import opened Wrappers

  /** MongoDB ObjectIds; the model only ever compares them for equality. */
  type UserId = nat
  type TripId = nat
  type BookingId = nat

  /** A JavaScript Date as the number of milliseconds since the epoch. */
  type Time = int

  datatype TripStatus = Upcoming | Ongoing | Completed | Cancelled

  datatype BookingStatus = Pending | Accepted | Rejected

  datatype Transport = Bus | Railway | Airplane

  /** The string each booking status is stored and queried as. */
  function BookingStatusName(s: BookingStatus): string
  {
    match s
    case Pending => "pending"
    case Accepted => "accepted"
    case Rejected => "rejected"
  }

  /** One entry of a trip's embedded `bookings` array. */
  datatype Booking = Booking(id: BookingId, user: UserId, seatsBooked: nat, status: BookingStatus)

  /** A trip document as a value: what a read-only query returns. */
  datatype TripRecord = TripRecord(
    id: TripId,
    title: string,
    from: string,
    to: string,
    startDate: Time,
    endDate: Time,
    seats: nat,
    image: string,
    pricePerPerson: nat,
    phoneNo: string,
    modeOfTransport: Option<Transport>,
    createdBy: UserId,
    bookings: seq<Booking>,
    status: TripStatus)

  /**
   * The decision of the pre-save hook: an ended trip is completed, a running
   * trip is ongoing, and otherwise the trip is upcoming unless it was
   * cancelled. A cancelled trip therefore stays cancelled only while it has
   * not started.
   */
  function DeriveStatus(prior: TripStatus, startDate: Time, endDate: Time, now: Time): (s: TripStatus)
    ensures s == Completed <==> endDate < now
    ensures s == Ongoing <==> startDate <= now <= endDate
    ensures s == Upcoming <==> now < startDate && now <= endDate && prior != Cancelled
    ensures s == Cancelled <==> now < startDate && now <= endDate && prior == Cancelled
  {
    if endDate < now then Completed
    else if startDate <= now && endDate >= now then Ongoing
    else if prior != Cancelled then Upcoming
    else prior
  }

  /** Saving twice at the same instant gives the status of saving once. */
  lemma DeriveIdempotent(prior: TripStatus, startDate: Time, endDate: Time, now: Time)
    ensures DeriveStatus(DeriveStatus(prior, startDate, endDate, now), startDate, endDate, now)
         == DeriveStatus(prior, startDate, endDate, now)
  {
  }

  /** Cancelling is undone by the next save once the trip has started or ended. */
  lemma CancelUndoneOnceStarted(startDate: Time, endDate: Time, now: Time)
    requires startDate <= now || endDate < now
    ensures DeriveStatus(Cancelled, startDate, endDate, now) != Cancelled
    ensures DeriveStatus(Cancelled, startDate, endDate, now) == DeriveStatus(Upcoming, startDate, endDate, now)
  {
  }

  /** The lifecycle order upcoming < ongoing < completed. */
  function Rank(s: TripStatus): nat
    requires s != Cancelled
  {
    match s
    case Upcoming => 0
    case Ongoing => 1
    case Completed => 2
  }

  /** For a trip that is not cancelled, later saves never move its status backwards. */
  lemma DeriveMonotone(prior: TripStatus, startDate: Time, endDate: Time, now1: Time, now2: Time)
    requires prior != Cancelled
    requires now1 <= now2
    ensures DeriveStatus(prior, startDate, endDate, now1) != Cancelled
    ensures Rank(DeriveStatus(prior, startDate, endDate, now1)) <= Rank(DeriveStatus(prior, startDate, endDate, now2))
  {
  }

  /** A trip document loaded for update; `save` runs the pre-save hook. */
  class Trip {
    const id: TripId
    const title: string
    const from: string
    const to: string
    const startDate: Time
    const endDate: Time
    const seats: nat
    const image: string
    const pricePerPerson: nat
    const phoneNo: string
    const modeOfTransport: Option<Transport>
    const createdBy: UserId
    var bookings: seq<Booking>
    var status: TripStatus

    /** A new document: no bookings, and the schema's default status upcoming. */
    constructor (id: TripId, title: string, from: string, to: string, startDate: Time, endDate: Time,
                 seats: nat, image: string, pricePerPerson: nat, phoneNo: string,
                 modeOfTransport: Option<Transport>, createdBy: UserId)
      ensures Record() == TripRecord(id, title, from, to, startDate, endDate, seats, image,
                                     pricePerPerson, phoneNo, modeOfTransport, createdBy, [], Upcoming)
    {
      this.id := id;
      this.title := title;
      this.from := from;
      this.to := to;
      this.startDate := startDate;
      this.endDate := endDate;
      this.seats := seats;
      this.image := image;
      this.pricePerPerson := pricePerPerson;
      this.phoneNo := phoneNo;
      this.modeOfTransport := modeOfTransport;
      this.createdBy := createdBy;
      bookings := [];
      status := Upcoming;
    }

    /** The document's current contents as a value. */
    function Record(): TripRecord
      reads this
    {
      TripRecord(id, title, from, to, startDate, endDate, seats, image, pricePerPerson, phoneNo,
                 modeOfTransport, createdBy, bookings, status)
    }

    /** `trip.save()`: the pre-save hook overwrites the status; nothing else changes. */
    method Save(now: Time)
      modifies this`status
      ensures status == DeriveStatus(old(status), startDate, endDate, now)
    {
      if endDate < now {
        status := Completed;
      } else if startDate <= now && endDate >= now {
        status := Ongoing;
      } else if status != Cancelled {
        status := Upcoming;
      }
    }
  }

  /** `findById`: the loaded document as a value, or None when there is none. */
  function Load(trip: Trip?): (r: Option<TripRecord>)
    reads trip
    ensures r.None? <==> trip == null
    ensures trip != null ==> r.value == trip.Record()
  {
    if trip == null then None else Some(trip.Record())
  }
}
