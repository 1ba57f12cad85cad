/**
 * The seat ledger and booking lookups of routes/triprouter.js: the seat sum
 * every handler recomputes with `reduce`, the `some`/`findIndex`/`id`
 * lookups, the two in-place edits of the bookings array, and the invariants
 * a trip's bookings keep under every handler.
 */
module Ledger {
  import opened Schema

  /**
   * `bookings.reduce((sum, b) => sum + b.seatsBooked, 0)`: the seats of ALL
   * bookings, rejected ones included.
   */
  function BookedSeats(bs: seq<Booking>): (total: nat)
    ensures bs != [] ==> bs[|bs| - 1].seatsBooked <= total
  {
    if bs == [] then 0 else BookedSeats(bs[..|bs| - 1]) + bs[|bs| - 1].seatsBooked
  }

  /** Every booking's seats are part of the total, whatever its status. */
  lemma {:induction false} BookedSeatsCoversEach(bs: seq<Booking>)
    ensures forall i :: 0 <= i < |bs| ==> bs[i].seatsBooked <= BookedSeats(bs)
  {
    if bs != [] {
      var init := bs[..|bs| - 1];
      BookedSeatsCoversEach(init);
      assert forall i :: 0 <= i < |init| ==> init[i] == bs[i];
    }
  }

  /** `trip.seats - bookedSeats`, as the listings report it. */
  function AvailableSeats(seats: nat, bs: seq<Booking>): int
  {
    seats - BookedSeats(bs)
  }

  lemma {:induction false} BookedSeatsConcat(a: seq<Booking>, b: seq<Booking>)
    ensures BookedSeats(a + b) == BookedSeats(a) + BookedSeats(b)
  {
    if b == [] {
      assert a + b == a;
    } else {
      var b' := b[..|b| - 1];
      assert (a + b)[..|a + b| - 1] == a + b';
      BookedSeatsConcat(a, b');
    }
  }

  /** Removing one booking gives its seats back to the ledger. */
  lemma BookedSeatsRemoveAt(bs: seq<Booking>, i: nat)
    requires i < |bs|
    ensures BookedSeats(RemoveAt(bs, i)) + bs[i].seatsBooked == BookedSeats(bs)
  {
    BookedSeatsConcat(bs[..i], bs[i + 1..]);
    BookedSeatsConcat(bs[..i], [bs[i]]);
    BookedSeatsConcat(bs[..i] + [bs[i]], bs[i + 1..]);
    assert bs == bs[..i] + [bs[i]] + bs[i + 1..];
  }

  /** Two booking lists with the same seats, position by position, book the same seats. */
  lemma {:induction false} BookedSeatsPointwise(a: seq<Booking>, b: seq<Booking>)
    requires |a| == |b|
    requires forall j :: 0 <= j < |a| ==> a[j].seatsBooked == b[j].seatsBooked
    ensures BookedSeats(a) == BookedSeats(b)
  {
    if a != [] {
      BookedSeatsPointwise(a[..|a| - 1], b[..|b| - 1]);
    }
  }

  /** Changing a booking's status leaves the seat sum as it was. */
  lemma BookedSeatsWithStatusAt(bs: seq<Booking>, i: nat, st: BookingStatus)
    requires i < |bs|
    ensures BookedSeats(WithStatusAt(bs, i, st)) == BookedSeats(bs)
  {
    BookedSeatsPointwise(WithStatusAt(bs, i, st), bs);
  }

  /** `bookings.some(b => b.user === user)`. */
  predicate HasBookingBy(bs: seq<Booking>, user: UserId)
    ensures HasBookingBy(bs, user) <==> user in (set b | b in bs :: b.user)
  {
    exists i :: 0 <= i < |bs| && bs[i].user == user
  }

  /** `bookings.findIndex(b => b.user === user)`: the first booking of `user`, or -1. */
  function IndexOfUser(bs: seq<Booking>, user: UserId): (k: int)
    ensures -1 <= k < |bs|
    ensures k == -1 <==> !HasBookingBy(bs, user)
    ensures k >= 0 ==> bs[k].user == user && forall j :: 0 <= j < k ==> bs[j].user != user
  {
    if bs == [] then -1
    else if bs[0].user == user then 0
    else
      var k := IndexOfUser(bs[1..], user);
      assert forall j :: 1 <= j < |bs| ==> bs[j] == bs[1..][j - 1];
      if k == -1 then -1 else k + 1
  }

  /** `bookings.id(bookingId)`: the first booking with that id, or -1. */
  function IndexOfId(bs: seq<Booking>, id: BookingId): (k: int)
    ensures -1 <= k < |bs|
    ensures k == -1 <==> forall j :: 0 <= j < |bs| ==> bs[j].id != id
    ensures k >= 0 ==> bs[k].id == id && forall j :: 0 <= j < k ==> bs[j].id != id
  {
    if bs == [] then -1
    else if bs[0].id == id then 0
    else
      var k := IndexOfId(bs[1..], id);
      assert forall j :: 1 <= j < |bs| ==> bs[j] == bs[1..][j - 1];
      if k == -1 then -1 else k + 1
  }

  /** `bookings.splice(i, 1)`. */
  function RemoveAt(bs: seq<Booking>, i: nat): (r: seq<Booking>)
    requires i < |bs|
    ensures |r| == |bs| - 1
    ensures forall j :: 0 <= j < i ==> r[j] == bs[j]
    ensures forall j :: i <= j < |r| ==> r[j] == bs[j + 1]
  {
    bs[..i] + bs[i + 1..]
  }

  /** `booking.status = st` on the i-th booking. */
  function WithStatusAt(bs: seq<Booking>, i: nat, st: BookingStatus): (r: seq<Booking>)
    requires i < |bs|
    ensures |r| == |bs|
    ensures r[i] == bs[i].(status := st)
    ensures forall j :: 0 <= j < |bs| && j != i ==> r[j] == bs[j]
  {
    bs[i := bs[i].(status := st)]
  }

  /** The seats of all bookings fit in the trip. */
  predicate WithinCapacity(seats: nat, bs: seq<Booking>)
  {
    BookedSeats(bs) <= seats
  }

  /** No user holds two bookings of the same trip. */
  predicate UsersDistinct(bs: seq<Booking>)
  {
    forall i, j :: 0 <= i < j < |bs| ==> bs[i].user != bs[j].user
  }

  /** No two bookings share an id: each pushed subdocument gets a new ObjectId. */
  predicate IdsDistinct(bs: seq<Booking>)
  {
    forall i, j :: 0 <= i < j < |bs| ==> bs[i].id != bs[j].id
  }

  /** `id` is the id of none of the bookings. */
  predicate FreshId(bs: seq<Booking>, id: BookingId)
  {
    forall j :: 0 <= j < |bs| ==> bs[j].id != id
  }

  /** What every handler keeps true of a trip's bookings. */
  predicate LedgerInvariant(seats: nat, creator: UserId, bs: seq<Booking>)
  {
    WithinCapacity(seats, bs) && UsersDistinct(bs) && IdsDistinct(bs) && !HasBookingBy(bs, creator)
  }

  /** Under the invariant a listing never shows a negative number of free seats. */
  lemma AvailableSeatsNonNegative(seats: nat, creator: UserId, bs: seq<Booking>)
    requires LedgerInvariant(seats, creator, bs)
    ensures AvailableSeats(seats, bs) >= 0
  {
  }

  /** A booking that passes the join checks keeps the invariant. */
  lemma AppendKeepsInvariant(seats: nat, creator: UserId, bs: seq<Booking>, b: Booking)
    requires LedgerInvariant(seats, creator, bs)
    requires b.user != creator && !HasBookingBy(bs, b.user) && FreshId(bs, b.id)
    requires BookedSeats(bs) + b.seatsBooked <= seats
    ensures LedgerInvariant(seats, creator, bs + [b])
  {
    var r := bs + [b];
    assert r[..|r| - 1] == bs;
    forall p, q | 0 <= p < q < |r| ensures r[p].id != r[q].id {
      assert r[p] == bs[p];
    }
    forall j | 0 <= j < |r| ensures r[j].user != creator {
      if j < |bs| {
        assert r[j] == bs[j];
      }
    }
  }

  /** Removing a booking keeps the invariant. */
  lemma RemoveKeepsInvariant(seats: nat, creator: UserId, bs: seq<Booking>, i: nat)
    requires i < |bs|
    requires LedgerInvariant(seats, creator, bs)
    ensures LedgerInvariant(seats, creator, RemoveAt(bs, i))
  {
    var r := RemoveAt(bs, i);
    BookedSeatsRemoveAt(bs, i);
    forall p, q | 0 <= p < q < |r| ensures r[p].user != r[q].user {
      var p' := if p < i then p else p + 1;
      var q' := if q < i then q else q + 1;
      assert r[p] == bs[p'] && r[q] == bs[q'] && p' < q';
    }
    forall p, q | 0 <= p < q < |r| ensures r[p].id != r[q].id {
      var p' := if p < i then p else p + 1;
      var q' := if q < i then q else q + 1;
      assert r[p] == bs[p'] && r[q] == bs[q'] && p' < q';
    }
    forall j | 0 <= j < |r| ensures r[j].user != creator {
      assert r[j] == bs[if j < i then j else j + 1];
    }
  }

  /** Changing one booking's status keeps the invariant. */
  lemma WithStatusKeepsInvariant(seats: nat, creator: UserId, bs: seq<Booking>, i: nat, st: BookingStatus)
    requires i < |bs|
    requires LedgerInvariant(seats, creator, bs)
    ensures LedgerInvariant(seats, creator, WithStatusAt(bs, i, st))
  {
    var r := WithStatusAt(bs, i, st);
    BookedSeatsWithStatusAt(bs, i, st);
    forall j | 0 <= j < |r| ensures r[j].user == bs[j].user && r[j].id == bs[j].id {
    }
  }

  /**
   * With one booking per user, removing the one `findIndex` found leaves the
   * user with no booking at all, so the user may join again.
   */
  lemma RemoveOwnBookingFreesUser(bs: seq<Booking>, user: UserId)
    requires UsersDistinct(bs)
    requires HasBookingBy(bs, user)
    ensures IndexOfUser(bs, user) >= 0
    ensures !HasBookingBy(RemoveAt(bs, IndexOfUser(bs, user)), user)
  {
    var k := IndexOfUser(bs, user);
    var r := RemoveAt(bs, k);
    forall j | 0 <= j < |r| ensures r[j].user != user {
      var j' := if j < k then j else j + 1;
      assert r[j] == bs[j'] && j' != k;
    }
  }
}
