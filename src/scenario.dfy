/** A session against fresh tables: add a facility, book it, book the same
    slot again, then cancel the booking twice. */
module Scenario {
  import opened PhpValues
  import Decimal
  import FacilitiesApi
  import BookingsApi

  method BookTwiceCancelTwice(facilityBody: Body, bookingBody: Body)
    returns (facility: FacilitiesApi.Response, first: BookingsApi.Response, repeat: BookingsApi.Response,
             cancel: BookingsApi.Response, again: BookingsApi.Response)
    requires FacilitiesApi.CanCreate(facilityBody)
    requires BookingsApi.Missing(bookingBody) == []
    requires bookingBody["facility_id"] != Null && bookingBody["booking_date"] != Null && bookingBody["timeslot"] != Null
    ensures facility == FacilitiesApi.Created(1)
    ensures first == BookingsApi.Created(1)
    ensures repeat == BookingsApi.Conflict
    ensures cancel == BookingsApi.Cancelled
    ensures again == BookingsApi.NotFound
  {
    var facilities := new FacilitiesApi.FacilityTable();
    var bookings := new BookingsApi.BookingTable();
    facility := facilities.Handle("POST", map[], facilityBody);
    var booked := BookingsApi.NewBooking(1, bookingBody);
    first := bookings.Handle("POST", map[], bookingBody, map[], facilities.rows);
    assert bookings.rows == [booked];

    BookingsApi.RepeatIsTaken([], 1, bookingBody);
    assert [] + [booked] == [booked];
    repeat := bookings.Handle("POST", map[], bookingBody, map[], facilities.rows);
    assert bookings.rows == [booked];

    var form := map["id" := Decimal.NatToString(1)];
    IdMatchesText(1, 1);
    assert form["id"] == "1";
    assert BookingsApi.IdGiven(form);
    cancel := bookings.Handle("DELETE", map[], map[], form, facilities.rows);
    assert bookings.rows == BookingsApi.Remove([booked], "1");
    assert booked in [booked] && IdMatches(booked.id, "1");

    BookingsApi.RemoveTwice([booked], "1");
    again := bookings.Handle("DELETE", map[], map[], form, facilities.rows);
  }
}
