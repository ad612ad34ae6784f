/** The bookings endpoint: list bookings joined with their facility, create a
    booking after an availability check, and cancel a booking by id. */
module BookingsApi {
  import opened Options
  import opened PhpValues
  import Sequences
  import Decimal
  import HttpStatus
  import FacilitiesApi
  import AutoIncrement

  /** A row of `bookings`. */
  datatype Booking = Booking(
    id: nat,
    facilityId: Value,
    name: Value,
    email: Value,
    phone: Value,
    bookingDate: Value,
    timeslot: Value,
    duration: Value,
    specialRequests: Value)

  /** A row of `SELECT b.*, f.name as facility_name FROM bookings b JOIN facilities f ...`. */
  datatype JoinedBooking = JoinedBooking(booking: Booking, facilityName: Value)

  datatype Response =
    | Listed(rows: seq<JoinedBooking>)
    | Created(id: nat)
    | MissingFields(missing: seq<string>)
    | Conflict
    | Cancelled
    | IdRequired
    | NotFound
    | MethodNotAllowed

  /** The code passed to `http_response_code`: 2xx exactly for a listing, a
      created booking and a cancellation, 4xx for every refusal. */
  function Status(r: Response): (code: int)
    ensures HttpStatus.IsSuccessful(code) <==> r.Listed? || r.Created? || r.Cancelled?
    ensures HttpStatus.IsClientError(code) <==> !HttpStatus.IsSuccessful(code)
    ensures code == HttpStatus.Conflict <==> r.Conflict?
  {
    match r
    case Listed(_) => HttpStatus.Ok
    case Created(_) => HttpStatus.Created
    case MissingFields(_) => HttpStatus.BadRequest
    case Conflict => HttpStatus.Conflict
    case Cancelled => HttpStatus.Ok
    case IdRequired => HttpStatus.BadRequest
    case NotFound => HttpStatus.NotFound
    case MethodNotAllowed => HttpStatus.MethodNotAllowed
  }

  const Required: seq<string> := ["facility_id", "name", "email", "phone", "booking_date", "timeslot"]

  /** The required fields the body lacks, in the order of `Required`. */
  function Missing(body: Body): seq<string> {
    MissingKeys(Required, body)
  }

  /** The missing list names exactly the absent keys among the six required
      ones; a present key counts whatever its value, even null or "". */
  lemma MissingExactly(body: Body)
    ensures forall k :: k in Missing(body) <==> k in Required && k !in body
    ensures Missing(body) == [] <==>
      "facility_id" in body && "name" in body && "email" in body &&
      "phone" in body && "booking_date" in body && "timeslot" in body
    ensures Sequences.IsSubsequence(Missing(body), Required)
  {
  }

  /** The auto-increment key of a booking. */
  function BookingId(b: Booking): nat {
    b.id
  }

  /** The availability query's WHERE clause: same facility, date and timeslot. */
  predicate InSlot(b: Booking, facilityId: Value, date: Value, timeslot: Value) {
    SqlEquals(b.facilityId, facilityId) && SqlEquals(b.bookingDate, date) && SqlEquals(b.timeslot, timeslot)
  }

  predicate Clash(a: Booking, b: Booking) {
    InSlot(a, b.facilityId, b.bookingDate, b.timeslot)
  }

  /** No two bookings hold the same facility, date and timeslot. */
  ghost predicate NoDoubleBooking(rows: seq<Booking>) {
    Sequences.Pairwise((a: Booking, b: Booking) => !Clash(a, b), rows)
  }

  /** The availability query finds a row: some stored booking has the
      request's facility, date and timeslot, none of which may be null. */
  predicate SlotTaken(rows: seq<Booking>, body: Body)
    requires Missing(body) == []
    ensures SlotTaken(rows, body) <==>
      && body["facility_id"] != Null && body["booking_date"] != Null && body["timeslot"] != Null
      && exists b :: b in rows && b.facilityId == body["facility_id"]
                   && b.bookingDate == body["booking_date"] && b.timeslot == body["timeslot"]
  {
    exists b | b in rows :: InSlot(b, body["facility_id"], body["booking_date"], body["timeslot"])
  }

  /** The inserted row: the request's fields, duration 1 and special requests
      '' unless given (and not null). */
  function NewBooking(id: nat, body: Body): (b: Booking)
    requires Missing(body) == []
    ensures b.id == id && b.facilityId == body["facility_id"] && b.name == body["name"]
    ensures b.email == body["email"] && b.phone == body["phone"]
    ensures b.bookingDate == body["booking_date"] && b.timeslot == body["timeslot"]
    ensures b.duration == (if "duration" in body && body["duration"] != Null then body["duration"] else Int(1))
    ensures b.specialRequests ==
      (if "special_requests" in body && body["special_requests"] != Null then body["special_requests"] else Str(""))
  {
    MissingExactly(body);
    Booking(id, body["facility_id"], body["name"], body["email"], body["phone"],
            body["booking_date"], body["timeslot"],
            Coalesce(body, "duration", Int(1)), Coalesce(body, "special_requests", Str("")))
  }

  /** Inserting only after the availability query came back empty keeps every
      slot held by at most one booking. */
  lemma InsertKeepsNoDoubleBooking(rows: seq<Booking>, id: nat, body: Body)
    requires Missing(body) == [] && NoDoubleBooking(rows) && !SlotTaken(rows, body)
    ensures NoDoubleBooking(rows + [NewBooking(id, body)])
  {
    var rows' := rows + [NewBooking(id, body)];
    forall i, j | 0 <= i < j < |rows'|
      ensures !Clash(rows'[i], rows'[j])
    {
      if j < |rows| {
        assert rows'[i] == rows[i] && rows'[j] == rows[j];
      } else {
        assert rows'[i] in rows;
      }
    }
  }

  /** Repeating a booking whose facility, date and timeslot are not null finds
      the slot taken. */
  lemma RepeatIsTaken(rows: seq<Booking>, id: nat, body: Body)
    requires Missing(body) == []
    requires body["facility_id"] != Null && body["booking_date"] != Null && body["timeslot"] != Null
    ensures SlotTaken(rows + [NewBooking(id, body)], body)
  {
    assert NewBooking(id, body) in rows + [NewBooking(id, body)];
  }

  /** A null facility, date or timeslot never equals anything in SQL, so such
      a request is never refused as a conflict. */
  lemma NullSlotNeverTaken(rows: seq<Booking>, body: Body)
    requires Missing(body) == []
    requires body["facility_id"] == Null || body["booking_date"] == Null || body["timeslot"] == Null
    ensures !SlotTaken(rows, body)
  {
  }

  /** Only the three slot fields of the request matter: two requests that
      agree on facility, date and timeslot find the slot taken alike, whatever
      their other fields, duration included. */
  lemma SlotTakenBySlotOnly(rows: seq<Booking>, body: Body, other: Body)
    requires Missing(body) == [] && Missing(other) == []
    requires body["facility_id"] == other["facility_id"] && body["booking_date"] == other["booking_date"]
    requires body["timeslot"] == other["timeslot"]
    ensures SlotTaken(rows, body) == SlotTaken(rows, other)
  {
  }

  /** Only the three slot columns matter: a two-hour booking of 9:00-10:00
      does not make 10:00-11:00 of the same facility and day unavailable. */
  lemma DurationDoesNotBlock(held: Booking, body: Body)
    requires Missing(body) == []
    requires held.facilityId == body["facility_id"] && held.bookingDate == body["booking_date"]
    requires held.timeslot == Str("9:00-10:00") && held.duration == Int(2)
    requires body["timeslot"] == Str("10:00-11:00")
    ensures !SlotTaken([held], body)
  {
    assert held.timeslot != body["timeslot"] by {
      assert |"9:00-10:00"| != |"10:00-11:00"|;
    }
  }

  /** The join condition `b.facility_id = f.id`. */
  predicate JoinsWith(b: Booking, f: FacilitiesApi.Facility) {
    SqlEquals(b.facilityId, Int(f.id))
  }

  /** The joined rows of one booking: one per facility it refers to, in the
      order of the facilities table. */
  function JoinOne(b: Booking, facilities: seq<FacilitiesApi.Facility>): (r: seq<JoinedBooking>)
    ensures forall j :: j in r <==>
      j.booking == b && exists f :: f in facilities && JoinsWith(b, f) && j.facilityName == f.name
    ensures var joined := Sequences.Filter((f: FacilitiesApi.Facility) => JoinsWith(b, f), facilities);
            |r| == |joined| && forall i :: 0 <= i < |r| ==> r[i] == JoinedBooking(b, joined[i].name)
  {
    var joined := Sequences.Filter((f: FacilitiesApi.Facility) => JoinsWith(b, f), facilities);
    var r := seq(|joined|, i requires 0 <= i < |joined| => JoinedBooking(b, joined[i].name));
    assert forall f :: f in joined ==> exists i :: 0 <= i < |r| && r[i] == JoinedBooking(b, f.name) by {
      forall f | f in joined
        ensures exists i :: 0 <= i < |r| && r[i] == JoinedBooking(b, f.name)
      {
        var i :| 0 <= i < |joined| && joined[i] == f;
        assert r[i] == JoinedBooking(b, f.name);
      }
    }
    r
  }

  /** `WHERE b.email = ?` when an email is given; every booking otherwise. */
  predicate EmailSelects(b: Booking, email: Option<string>) {
    email.None? || SqlEquals(b.email, Str(email.value))
  }

  /** The inner join of the selected bookings with the facilities table. */
  function Join(rows: seq<Booking>, facilities: seq<FacilitiesApi.Facility>, email: Option<string>): (r: seq<JoinedBooking>)
    ensures forall j :: j in r <==>
      && j.booking in rows && EmailSelects(j.booking, email)
      && exists f :: f in facilities && JoinsWith(j.booking, f) && j.facilityName == f.name
    decreases |rows|
  {
    if rows == [] then []
    else
      var rest := Join(rows[1..], facilities, email);
      assert forall b :: b in rows <==> b == rows[0] || b in rows[1..];
      if EmailSelects(rows[0], email) then JoinOne(rows[0], facilities) + rest else rest
  }

  /** With unique facility ids a booking joins with at most one facility. */
  lemma JoinOneAtMostOne(b: Booking, facilities: seq<FacilitiesApi.Facility>)
    requires Sequences.Pairwise((f: FacilitiesApi.Facility, g: FacilitiesApi.Facility) => f.id != g.id, facilities)
    ensures |JoinOne(b, facilities)| <= 1
  {
    var p := (f: FacilitiesApi.Facility) => JoinsWith(b, f);
    var joined := Sequences.Filter(p, facilities);
    Sequences.FilterIsSubsequence(p, facilities);
    Sequences.SubsequenceKeepsPairwise((f: FacilitiesApi.Facility, g: FacilitiesApi.Facility) => f.id != g.id, joined, facilities);
    assert forall f, g :: f in joined && g in joined ==> f.id == g.id;
    if 1 < |joined| {
      SameIdNotUnique(joined);
      assert false;
    }
  }

  /** Two or more facilities that all share one id do not have unique ids. */
  lemma SameIdNotUnique(fs: seq<FacilitiesApi.Facility>)
    requires 1 < |fs|
    requires forall f, g :: f in fs && g in fs ==> f.id == g.id
    ensures !Sequences.Pairwise((f: FacilitiesApi.Facility, g: FacilitiesApi.Facility) => f.id != g.id, fs)
  {
    assert fs[0] in fs && fs[1] in fs;
  }

  /** With unique booking ids and unique facility ids, as the primary keys of
      both tables guarantee, the inner join never yields the same row twice. */
  lemma {:induction false} JoinDistinct(rows: seq<Booking>, facilities: seq<FacilitiesApi.Facility>, email: Option<string>)
    requires Sequences.Pairwise((a: Booking, c: Booking) => a.id != c.id, rows)
    requires Sequences.Pairwise((f: FacilitiesApi.Facility, g: FacilitiesApi.Facility) => f.id != g.id, facilities)
    ensures Sequences.Pairwise((x: JoinedBooking, y: JoinedBooking) => x != y, Join(rows, facilities, email))
    decreases |rows|
  {
    if rows != [] {
      var tail := rows[1..];
      assert Sequences.Pairwise((a: Booking, c: Booking) => a.id != c.id, tail) by {
        forall i, j | 0 <= i < j < |tail| ensures tail[i].id != tail[j].id {
          assert tail[i] == rows[i + 1] && tail[j] == rows[j + 1];
        }
      }
      JoinDistinct(tail, facilities, email);
      var rest := Join(tail, facilities, email);
      if EmailSelects(rows[0], email) {
        var head := JoinOne(rows[0], facilities);
        JoinOneAtMostOne(rows[0], facilities);
        var r := head + rest;
        assert Join(rows, facilities, email) == r;
        forall i, j | 0 <= i < j < |r| ensures r[i] != r[j] {
          if j < |head| {
            assert false;
          } else if i < |head| {
            assert r[i] in head && r[i].booking == rows[0];
            assert r[j] == rest[j - |head|] && r[j] in rest;
            var k :| 0 < k < |rows| && rows[k] == r[j].booking by {
              assert r[j].booking in tail;
              var m :| 0 <= m < |tail| && tail[m] == r[j].booking;
              assert rows[m + 1] == tail[m];
            }
            assert rows[0].id != rows[k].id;
          } else {
            assert r[i] == rest[i - |head|] && r[j] == rest[j - |head|];
          }
        }
      }
    }
  }

  /** GET: bookings for the `email` query parameter if it is set, all otherwise,
      each joined with its facility's name. */
  function List(rows: seq<Booking>, facilities: seq<FacilitiesApi.Facility>, query: map<string, string>): (r: seq<JoinedBooking>)
    ensures forall j :: j in r <==>
      && j.booking in rows
      && ("email" in query ==> j.booking.email == Str(query["email"]))
      && exists f :: f in facilities && j.booking.facilityId == Int(f.id) && j.facilityName == f.name
  {
    Join(rows, facilities, if "email" in query then Some(query["email"]) else None)
  }

  /** `!empty($data['id'])` on a form-decoded body: present, not "" and not "0". */
  predicate IdGiven(form: map<string, string>)
    ensures IdGiven(form) <==> "id" in form && !IsEmpty(Str(form["id"]))
  {
    "id" in form && form["id"] != "" && form["id"] != "0"
  }

  /** `DELETE FROM bookings WHERE id = ?`: the rows the id does not select. */
  function Remove(rows: seq<Booking>, param: string): (r: seq<Booking>)
    ensures forall b :: b in r <==> b in rows && !IdMatches(b.id, param)
    ensures Sequences.IsSubsequence(r, rows)
  {
    Sequences.FilterIsSubsequence((b: Booking) => !IdMatches(b.id, param), rows);
    Sequences.Filter((b: Booking) => !IdMatches(b.id, param), rows)
  }

  /** After a delete by some id, deleting by the same id finds nothing. */
  lemma RemoveTwice(rows: seq<Booking>, param: string)
    ensures forall b :: b in Remove(rows, param) ==> !IdMatches(b.id, param)
    ensures Remove(Remove(rows, param), param) == Remove(rows, param)
  {
    Sequences.FilterAll((b: Booking) => !IdMatches(b.id, param), Remove(rows, param));
  }

  /** The `bookings` table and its auto-increment counter. */
  class BookingTable {
    var rows: seq<Booking>
    var nextId: nat

    ghost predicate Valid()
      reads this
    {
      AutoIncrement.IdsAscending(BookingId, rows, nextId) && NoDoubleBooking(rows)
    }

    constructor ()
      ensures Valid() && rows == [] && nextId == 1
    {
      rows, nextId := [], 1;
    }

    /** POST: 400 with the missing list, 409 when the slot is taken, otherwise
        insert one row and answer 201 with its id. */
    method Create(body: Body) returns (r: Response)
      requires Valid()
      modifies this
      ensures Valid()
      ensures Missing(body) != [] ==>
        r == MissingFields(Missing(body)) && rows == old(rows) && nextId == old(nextId)
      ensures Missing(body) == [] && SlotTaken(old(rows), body) ==>
        r == Conflict && rows == old(rows) && nextId == old(nextId)
      ensures Missing(body) == [] && !SlotTaken(old(rows), body) ==>
        && r == Created(old(nextId))
        && rows == old(rows) + [NewBooking(old(nextId), body)]
        && nextId == old(nextId) + 1
    {
      var missing := Missing(body);
      if missing != [] {
        r := MissingFields(missing);
      } else if SlotTaken(rows, body) {
        r := Conflict;
      } else {
        InsertKeepsNoDoubleBooking(rows, nextId, body);
        AutoIncrement.AppendNext(BookingId, rows, nextId, NewBooking(nextId, body));
        rows := rows + [NewBooking(nextId, body)];
        r := Created(nextId);
        nextId := nextId + 1;
      }
    }

    /** DELETE: 400 without an id, otherwise remove the rows it selects and
        answer 404 exactly when there were none. */
    method Cancel(form: map<string, string>) returns (r: Response)
      requires Valid()
      modifies this
      ensures Valid() && nextId == old(nextId)
      ensures !IdGiven(form) ==> r == IdRequired && rows == old(rows)
      ensures IdGiven(form) ==> && rows == Remove(old(rows), form["id"])
                                && (r == Cancelled || r == NotFound)
                                && (r == Cancelled <==> exists b :: b in old(rows) && IdMatches(b.id, form["id"]))
      ensures r == NotFound ==> rows == old(rows)
    {
      if IdGiven(form) {
        var kept := Remove(rows, form["id"]);
        AutoIncrement.KeepSubsequence(BookingId, kept, rows, nextId);
        Sequences.SubsequenceKeepsPairwise((a: Booking, b: Booking) => !Clash(a, b), kept, rows);
        Sequences.FilterShrinks((b: Booking) => !IdMatches(b.id, form["id"]), rows);
        var removed := |rows| - |kept|;
        if removed > 0 {
          r := Cancelled;
        } else {
          r := NotFound;
        }
        rows := kept;
      } else {
        r := IdRequired;
      }
    }

    /** The endpoint: GET lists, POST creates, DELETE cancels, any other
        method gets 405. */
    method Handle(httpMethod: string, query: map<string, string>, body: Body, form: map<string, string>,
                  facilities: seq<FacilitiesApi.Facility>) returns (r: Response)
      requires Valid()
      modifies this
      ensures Valid()
      ensures httpMethod == "GET" ==>
        r == Listed(List(old(rows), facilities, query)) && rows == old(rows) && nextId == old(nextId)
      ensures httpMethod == "POST" && Missing(body) != [] ==>
        r == MissingFields(Missing(body)) && rows == old(rows)
      ensures httpMethod == "POST" && Missing(body) == [] && SlotTaken(old(rows), body) ==>
        r == Conflict && rows == old(rows)
      ensures httpMethod == "POST" && Missing(body) == [] && !SlotTaken(old(rows), body) ==>
        && r == Created(old(nextId))
        && rows == old(rows) + [NewBooking(old(nextId), body)]
        && nextId == old(nextId) + 1
      ensures httpMethod == "DELETE" ==> nextId == old(nextId)
      ensures httpMethod == "DELETE" && !IdGiven(form) ==> r == IdRequired && rows == old(rows)
      ensures httpMethod == "DELETE" && IdGiven(form) ==>
        && rows == Remove(old(rows), form["id"])
        && (r == Cancelled || r == NotFound)
        && (r == Cancelled <==> exists b :: b in old(rows) && IdMatches(b.id, form["id"]))
      ensures httpMethod != "GET" && httpMethod != "POST" && httpMethod != "DELETE" ==>
        r == MethodNotAllowed && rows == old(rows)
      ensures HttpStatus.IsClientError(Status(r)) ==> rows == old(rows) && nextId == old(nextId)
    {
      if httpMethod == "GET" {
        r := Listed(List(rows, facilities, query));
      } else if httpMethod == "POST" {
        r := Create(body);
      } else if httpMethod == "DELETE" {
        r := Cancel(form);
      } else {
        r := MethodNotAllowed;
      }
    }
  }
}
