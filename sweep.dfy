/**
 * The midnight job of server.js: every trip returned by `tripModel.find()`
 * is saved in turn, which re-derives its status through the pre-save hook.
 */
module Sweep {
  import opened Schema

  /** A trip document after the sweep has saved it. */
  function Swept(t: TripRecord, now: Time): (r: TripRecord)
    ensures r.status == DeriveStatus(t.status, t.startDate, t.endDate, now)
    ensures r.(status := t.status) == t
  {
    t.(status := DeriveStatus(t.status, t.startDate, t.endDate, now))
  }

  /** Sweeping twice at the same instant leaves every trip as sweeping once. */
  lemma SweptIdempotent(t: TripRecord, now: Time)
    ensures Swept(Swept(t, now), now) == Swept(t, now)
  {
    DeriveIdempotent(t.status, t.startDate, t.endDate, now);
  }

  /** A cancelled trip survives the sweep only while it has not started. */
  lemma SweepKeepsCancelledIff(t: TripRecord, now: Time)
    requires t.status == Cancelled
    ensures Swept(t, now).status == Cancelled <==> now < t.startDate && now <= t.endDate
  {
  }

  /**
   * The loop body awaits each `save()` before the next trip, in the order
   * `find()` returned them; `find()` returns distinct documents. Each save
   * reads the clock anew, so trip `i` is saved at its own instant `nows[i]`.
   */
  method MidnightSweep(trips: seq<Trip>, nows: seq<Time>)
    requires |nows| == |trips|
    requires forall i, j :: 0 <= i < j < |trips| ==> trips[i] != trips[j]
    modifies set t | t in trips
    ensures forall i :: 0 <= i < |trips| ==> trips[i].Record() == Swept(old(trips[i].Record()), nows[i])
  {
    for k := 0 to |trips|
      invariant forall i :: 0 <= i < k ==> trips[i].Record() == Swept(old(trips[i].Record()), nows[i])
      invariant forall i :: k <= i < |trips| ==> trips[i].Record() == old(trips[i].Record())
    {
      trips[k].Save(nows[k]);
    }
  }
}
