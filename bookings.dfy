/** Which bookings are active on a day, how many there are, and which booking a
    guest is staying under. A booking is active from its check-in day through its
    check-out day, both included. */
module Bookings {
  import opened Common
  import opened Models

  predicate IsActiveOn(b: Booking, today: Date)
  {
    b.checkInDate <= today <= b.checkOutDate
  }

  /** The bookings active on `today`, in table order. */
  function ActiveBookings(bookings: seq<Booking>, today: Date): seq<Booking>
  {
    Filter(bookings, (b: Booking) => IsActiveOn(b, today))
  }

  /** The number of active bookings the manager dashboard shows. */
  function CountActive(bookings: seq<Booking>, today: Date): nat
  {
    |ActiveBookings(bookings, today)|
  }

  /** The active bookings are exactly the stored bookings covering `today`, check-in
      and check-out days included, and their count is the number of table rows that
      cover it. */
  lemma ActiveBookingsCoverToday(bookings: seq<Booking>, today: Date)
    ensures forall b :: b in ActiveBookings(bookings, today) <==> b in bookings && b.checkInDate <= today <= b.checkOutDate
    ensures CountActive(bookings, today) == |set i | 0 <= i < |bookings| && IsActiveOn(bookings[i], today)|
  {
    var p := (b: Booking) => IsActiveOn(b, today);
    FilterCountsMatches(bookings, p);
    assert MatchingIndices(bookings, p) == set i | 0 <= i < |bookings| && IsActiveOn(bookings[i], today);
  }

  /** A booking is active on its check-in and check-out days and on no day just outside them. */
  lemma BoundaryDaysAreActive(b: Booking)
    requires b.checkInDate <= b.checkOutDate
    ensures IsActiveOn(b, b.checkInDate) && IsActiveOn(b, b.checkOutDate)
    ensures !IsActiveOn(b, b.checkInDate - 1) && !IsActiveOn(b, b.checkOutDate + 1)
  {
  }

  /** The booking the guest with id `guestId` is staying under on `today`: the first
      one in table order, when several cover the day. */
  function FindActiveBooking(bookings: seq<Booking>, guestId: int, today: Date): (r: Option<Booking>)
    ensures r.Some? ==> r.value in bookings && r.value.guestId == guestId && IsActiveOn(r.value, today)
    ensures r.None? <==> forall b :: b in bookings && b.guestId == guestId ==> !IsActiveOn(b, today)
  {
    var p := (b: Booking) => b.guestId == guestId && IsActiveOn(b, today);
    match FirstIndex(bookings, p)
    case None => None
    case Some(i) => Some(bookings[i])
  }

  /** When several of the guest's bookings cover the day, the first in table order is chosen. */
  lemma FindActiveBookingTakesFirst(bookings: seq<Booking>, guestId: int, today: Date, i: nat)
    requires i < |bookings| && bookings[i].guestId == guestId && IsActiveOn(bookings[i], today)
    requires forall j :: 0 <= j < i ==> !(bookings[j].guestId == guestId && IsActiveOn(bookings[j], today))
    ensures FindActiveBooking(bookings, guestId, today) == Some(bookings[i])
  {
    var p := (b: Booking) => b.guestId == guestId && IsActiveOn(b, today);
    var k := FirstIndex(bookings, p);
    assert k.Some?;
    assert !(k.value < i) && !(i < k.value);
  }

  /** Booking rows held in ascending primary-key order, as an unordered query returns
      them to `.first()`. */
  predicate IdsAscending(bookings: seq<Booking>)
  {
    forall i, j :: 0 <= i < j < |bookings| ==> bookings[i].id < bookings[j].id
  }

  /** With the rows in primary-key order, the booking chosen among a guest's bookings
      covering the day is the one with the lowest key. */
  lemma FindActiveBookingLowestId(bookings: seq<Booking>, guestId: int, today: Date, b: Booking)
    requires IdsAscending(bookings)
    requires b in bookings && b.guestId == guestId && IsActiveOn(b, today)
    ensures FindActiveBooking(bookings, guestId, today).Some?
    ensures FindActiveBooking(bookings, guestId, today).value.id <= b.id
  {
    var p := (c: Booking) => c.guestId == guestId && IsActiveOn(c, today);
    var k := FirstIndex(bookings, p);
    var j :| 0 <= j < |bookings| && bookings[j] == b;
    assert k.Some? by { assert p(bookings[j]); }
    assert !(j < k.value);
  }
}
