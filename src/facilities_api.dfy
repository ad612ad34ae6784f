/** The facilities endpoint: list or fetch the `facilities` table by id, and
    add a facility. */
module FacilitiesApi {
  import opened Options
  import opened PhpValues
  import Decimal
  import HttpStatus
  import AutoIncrement

  /** A row of `facilities`; every column but the id holds the value the
      request supplied or the default the endpoint chose. */
  datatype Facility = Facility(
    id: nat,
    name: Value,
    kind: Value,
    description: Value,
    imageUrl: Value,
    capacity: Value,
    hourlyRate: Value)

  datatype Response =
    | Found(facility: Facility)
    | Listed(facilities: seq<Facility>)
    | Created(id: nat)
    | MissingFields
    | NotFound
    | MethodNotAllowed

  /** The code passed to `http_response_code`: 2xx exactly for a found row,
      a listing and a created facility, 4xx for every refusal. */
  function Status(r: Response): (code: int)
    ensures HttpStatus.IsSuccessful(code) <==> r.Found? || r.Listed? || r.Created?
    ensures HttpStatus.IsClientError(code) <==> !HttpStatus.IsSuccessful(code)
    ensures code == HttpStatus.NotFound <==> r.NotFound?
  {
    match r
    case Found(_) => HttpStatus.Ok
    case Listed(_) => HttpStatus.Ok
    case Created(_) => HttpStatus.Created
    case MissingFields => HttpStatus.BadRequest
    case NotFound => HttpStatus.NotFound
    case MethodNotAllowed => HttpStatus.MethodNotAllowed
  }

  /** The auto-increment key of a facility. */
  function FacilityId(f: Facility): nat {
    f.id
  }

  /** `SELECT * FROM facilities WHERE id = ?` followed by `fetch()`: the first
      row the id parameter selects, if any. */
  function FindById(rows: seq<Facility>, param: string): (r: Option<Facility>)
    ensures r.Some? ==> r.value in rows && IdMatches(r.value.id, param)
    ensures r.None? <==> forall f :: f in rows ==> !IdMatches(f.id, param)
  {
    if rows == [] then None
    else if IdMatches(rows[0].id, param) then Some(rows[0])
    else FindById(rows[1..], param)
  }

  /** GET: with an `id` query parameter the selected row or 404, without one
      every row. */
  function Get(rows: seq<Facility>, query: map<string, string>): (r: Response)
    ensures "id" !in query ==> r == Listed(rows)
    ensures "id" in query ==> (r.Found? || r.NotFound?)
    ensures "id" in query && r.Found? ==> r.facility in rows && IdMatches(r.facility.id, query["id"])
    ensures "id" in query ==> (r.NotFound? <==> forall f :: f in rows ==> !IdMatches(f.id, query["id"]))
  {
    if "id" in query then
      match FindById(rows, query["id"])
      case Some(f) => Found(f)
      case None => NotFound
    else Listed(rows)
  }

  /** POST accepts a body whose `name` and `type` are both non-empty: both
      present, neither null nor "", and, since PHP counts it empty, not "0". */
  predicate CanCreate(body: Body)
    ensures CanCreate(body) ==> "name" in body && "type" in body
    ensures CanCreate(body) ==> body["name"] !in {Null, Str(""), Str("0")} && body["type"] !in {Null, Str(""), Str("0")}
  {
    !EmptyAt(body, "name") && !EmptyAt(body, "type")
  }

  /** The inserted row: description and image URL default to '', capacity
      and hourly rate to 0. */
  function NewFacility(id: nat, body: Body): (f: Facility)
    requires CanCreate(body)
    ensures f.id == id && f.name == body["name"] && f.kind == body["type"]
    ensures f.description == (if "description" in body && body["description"] != Null then body["description"] else Str(""))
    ensures f.imageUrl == (if "image_url" in body && body["image_url"] != Null then body["image_url"] else Str(""))
    ensures f.capacity == (if "capacity" in body && body["capacity"] != Null then body["capacity"] else Int(0))
    ensures f.hourlyRate == (if "hourly_rate" in body && body["hourly_rate"] != Null then body["hourly_rate"] else Int(0))
  {
    Facility(id, body["name"], body["type"],
             Coalesce(body, "description", Str("")),
             Coalesce(body, "image_url", Str("")),
             Coalesce(body, "capacity", Int(0)),
             Coalesce(body, "hourly_rate", Int(0)))
  }

  /** A GET by the id a POST returned finds the row that POST inserted. */
  lemma FindCreated(rows: seq<Facility>, nextId: nat, body: Body)
    requires AutoIncrement.IdsAscending(FacilityId, rows, nextId) && CanCreate(body)
    ensures Get(rows + [NewFacility(nextId, body)], map["id" := Decimal.NatToString(nextId)])
            == Found(NewFacility(nextId, body))
  {
    var f := NewFacility(nextId, body);
    var param := Decimal.NatToString(nextId);
    forall g | g in rows
      ensures !IdMatches(g.id, param)
    {
      IdMatchesText(nextId, g.id);
    }
    IdMatchesText(nextId, nextId);
    FindSkips(rows, [f], param);
  }

  /** A lookup that matches nothing in `a` continues in `b`. */
  lemma {:induction false} FindSkips(a: seq<Facility>, b: seq<Facility>, param: string)
    requires forall g :: g in a ==> !IdMatches(g.id, param)
    ensures FindById(a + b, param) == FindById(b, param)
    decreases |a|
  {
    if a != [] {
      assert (a + b)[1..] == a[1..] + b;
      FindSkips(a[1..], b, param);
    } else {
      assert a + b == b;
    }
  }

  /** The `facilities` table and its auto-increment counter. */
  class FacilityTable {
    var rows: seq<Facility>
    var nextId: nat

    ghost predicate Valid()
      reads this
    {
      AutoIncrement.IdsAscending(FacilityId, rows, nextId)
    }

    constructor ()
      ensures Valid() && rows == [] && nextId == 1
    {
      rows, nextId := [], 1;
    }

    /** POST: insert one row with the defaults, or 400 and no change. */
    method Post(body: Body) returns (r: Response)
      requires Valid()
      modifies this
      ensures Valid()
      ensures CanCreate(body) ==> && r == Created(old(nextId))
                                  && rows == old(rows) + [NewFacility(old(nextId), body)]
                                  && nextId == old(nextId) + 1
      ensures !CanCreate(body) ==> r == MissingFields && rows == old(rows) && nextId == old(nextId)
      ensures r.Created? ==> Get(rows, map["id" := Decimal.NatToString(r.id)]) == Found(rows[|rows| - 1])
    {
      if CanCreate(body) {
        FindCreated(rows, nextId, body);
        AutoIncrement.AppendNext(FacilityId, rows, nextId, NewFacility(nextId, body));
        rows := rows + [NewFacility(nextId, body)];
        r := Created(nextId);
        nextId := nextId + 1;
      } else {
        r := MissingFields;
      }
    }

    /** The endpoint: GET reads, POST inserts, any other method gets 405. */
    method Handle(httpMethod: string, query: map<string, string>, body: Body) returns (r: Response)
      requires Valid()
      modifies this
      ensures Valid()
      ensures httpMethod == "GET" ==> r == Get(old(rows), query)
      ensures httpMethod == "POST" && CanCreate(body) ==>
                && r == Created(old(nextId))
                && rows == old(rows) + [NewFacility(old(nextId), body)]
                && nextId == old(nextId) + 1
      ensures r.Created? ==> |rows| > 0 && Get(rows, map["id" := Decimal.NatToString(r.id)]) == Found(rows[|rows| - 1])
      ensures httpMethod == "POST" && !CanCreate(body) ==> r == MissingFields
      ensures httpMethod != "GET" && httpMethod != "POST" ==> r == MethodNotAllowed
      ensures !r.Created? ==> rows == old(rows) && nextId == old(nextId)
      ensures HttpStatus.IsClientError(Status(r)) ==> rows == old(rows)
    {
      if httpMethod == "GET" {
        r := Get(rows, query);
      } else if httpMethod == "POST" {
        r := Post(body);
      } else {
        r := MethodNotAllowed;
      }
    }
  }
}
