/** The derived and JPQL queries of BookingRepository, as filters over the booking
    table. No query has an ORDER BY, so only which bookings a query returns is
    stated, not in what order. */
module BookingRepository {
  import opened Common
  import opened Entities

  /** The row condition of `findOverlappingBookings`: same business, status
      CONFIRMED, and `b.startTime < endTime AND b.endTime > startTime`. */
  predicate OverlapsConfirmed(b: Booking, businessId: nat, startTime: int, endTime: int)
  {
    b.businessId == businessId && b.status == Confirmed && b.startTime < endTime && b.endTime > startTime
  }

  function FindOverlappingBookings(table: seq<Booking>, businessId: nat, startTime: int, endTime: int): (r: seq<Booking>)
    ensures forall b :: b in r <==>
      b in table && b.businessId == businessId && b.status == Confirmed
      && Overlaps(b.startTime, b.endTime, startTime, endTime)
    ensures r == [] <==> forall b :: b in table ==> !OverlapsConfirmed(b, businessId, startTime, endTime)
    ensures |r| <= |table|
  {
    if table == [] then []
    else
      var rest := FindOverlappingBookings(table[1..], businessId, startTime, endTime);
      if OverlapsConfirmed(table[0], businessId, startTime, endTime) then [table[0]] + rest else rest
  }

  /** `findByBusinessIdAndStartTimeBetween`: Between is inclusive at both ends. */
  function FindByBusinessIdAndStartTimeBetween(table: seq<Booking>, businessId: nat, from: int, to: int): (r: seq<Booking>)
    ensures forall b :: b in r <==> b in table && b.businessId == businessId && from <= b.startTime <= to
    ensures |r| <= |table|
  {
    if table == [] then []
    else
      var rest := FindByBusinessIdAndStartTimeBetween(table[1..], businessId, from, to);
      var b := table[0];
      if b.businessId == businessId && from <= b.startTime && b.startTime <= to then [b] + rest else rest
  }

  function FindByBusinessId(table: seq<Booking>, businessId: nat): (r: seq<Booking>)
    ensures forall b :: b in r <==> b in table && b.businessId == businessId
    ensures |r| <= |table|
  {
    if table == [] then []
    else
      var rest := FindByBusinessId(table[1..], businessId);
      if table[0].businessId == businessId then [table[0]] + rest else rest
  }

  function FindByCustomerPhone(table: seq<Booking>, phone: string): (r: seq<Booking>)
    ensures forall b :: b in r <==> b in table && b.customerPhone == phone
    ensures |r| <= |table|
  {
    if table == [] then []
    else
      var rest := FindByCustomerPhone(table[1..], phone);
      if table[0].customerPhone == phone then [table[0]] + rest else rest
  }

  /** `findById`: the position of the first booking with that id, if any. */
  function IndexOfId(table: seq<Booking>, id: nat): (r: Option<nat>)
    ensures r.Some? ==> r.value < |table| && table[r.value].id == id
    ensures r.Some? ==> forall j :: 0 <= j < r.value ==> table[j].id != id
    ensures r.None? ==> forall i :: 0 <= i < |table| ==> table[i].id != id
  {
    if table == [] then None
    else if table[0].id == id then Some(0)
    else
      match IndexOfId(table[1..], id)
      case None => None
      case Some(i) => Some(i + 1)
  }

  /** When bookings are numbered 1, 2, ... in table order, the booking with an id
      is the one at position id - 1. */
  lemma IndexOfSequentialId(table: seq<Booking>, id: nat)
    requires forall i :: 0 <= i < |table| ==> table[i].id == i + 1
    ensures IndexOfId(table, id) == if 1 <= id <= |table| then Some(id - 1) else None
  {
    if 1 <= id <= |table| {
      assert table[id - 1].id == id;
    }
  }

  /** Only CONFIRMED bookings can be reported as overlapping: a COMPLETED or a
      CANCELLED one never is, whatever its times. */
  lemma OverlapIgnoresCompletedAndCancelled(table: seq<Booking>, businessId: nat, startTime: int, endTime: int, b: Booking)
    requires b.status != Confirmed
    ensures b !in FindOverlappingBookings(table, businessId, startTime, endTime)
  {
  }

  /** A booking that starts before the window and runs into it is not returned by
      the between query. */
  lemma BetweenMissesBookingFromPreviousDay(date: int)
    ensures var b := Booking(1, 7, 3, StartOfDay(date) - 30, StartOfDay(date) + 60, "A", "12345678", Confirmed);
            FindByBusinessIdAndStartTimeBetween([b], 7, StartOfDay(date), StartOfDay(date + 1)) == []
  {
  }
}
