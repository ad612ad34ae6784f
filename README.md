# Sports complex booking site — a Dafny model

This project models the logic of a small sports-complex website. The site has
a PHP back end with three JSON endpoints and a React front end.

- **Bookings endpoint** (`BookingsApi`). GET lists bookings inner-joined with
  their facility, optionally only those for one email. POST computes the
  missing required fields, answers 409 when the facility, date and timeslot
  are already booked, and otherwise inserts one row with defaults. DELETE
  cancels by id and answers 404 when no row had that id.
- **Facilities endpoint** (`FacilitiesApi`). GET fetches one facility by id or
  lists them all. POST inserts a facility whose `name` and `type` are
  non-empty, with defaults for the other columns.
- **Contact endpoint** (`ContactApi`). POST stores a message and composes the
  notification email sent to the administrator.
- **Booking form** (`BookingFormComponent`) and **contact form**
  (`ContactFormComponent`). These cover validation, including the email
  pattern (`EmailPattern`), and the hourly time slots offered once a date is
  picked. They also cover the price total and the state updates of the change
  and submit handlers.
- **Facilities page** (`FacilitiesPage`) and **booking page** (`BookingPage`).
  These are the case-insensitive searches, which look in different fields on
  the two pages, plus the type filter and the selection of a facility.

Each database table is a class holding its rows in a `seq` and an
auto-increment counter. Each method's `ensures` gives the response and the new
table. A `Valid()` invariant holds that ids are positive and strictly
increasing. For bookings it also holds that no two rows share a slot. A
request body is an already-decoded map from field names to PHP values
(`PhpValues.Value`). The model spells out the PHP operations the scripts use:
`empty()`, `??`, `array_diff` against `array_keys`, string conversion, and SQL
`=` on bound parameters, under which NULL equals nothing. React component
state becomes a class whose methods are the event handlers. The pages' derived
lists are functions. Status codes are those of RFC 9110: 200 (section 15.3.1),
201 (section 15.3.2), 400 (section 15.5.1), 404 (section 15.5.5),
405 (section 15.5.6) and 409 (section 15.5.10).

Consequences of the source that the model makes explicit:

- **Presence counts, not content.** A required field counts as present when
  its key is in the body, even with value null or "".
- **Null slots.** A booking whose facility, date or timeslot is null never
  conflicts with anything, because SQL `=` never matches NULL
  (`BookingsApi.NullSlotNeverTaken`).
- **Duration.** Duration plays no part in the availability check. A two-hour
  booking from 9:00 does not block 10:00-11:00
  (`BookingsApi.DurationDoesNotBlock`).
- **Absent phone.** The contact endpoint stores '' but mails 'N/A'
  (`ContactApi.AbsentPhone`).

## Model

| member | source | states |
|---|---|---|
| PhpValues.IsEmpty | backend/api/facilities.php:36 | PHP's `empty()` on a present value: among null, booleans, integers and strings, exactly the values whose string conversion is "" or "0" |
| PhpValues.EmptyAt | backend/api/facilities.php:36 | `empty($data[$key])` treats an absent key exactly as a null value |
| PhpValues.Coalesce | backend/api/bookings.php:61-62 | `??` keeps a given non-null value and otherwise yields the default, so it is never null when the default is not |
| PhpValues.ToText | backend/api/contact.php:32-37 | string conversion by `.`: a string is itself, null and false are "", and a non-negative integer is decimal text that reads back to the integer |
| PhpValues.SqlEquals | backend/api/bookings.php:41-44 | SQL `=` on bound parameters: NULL matches nothing, and any other value matches only itself |
| PhpValues.IdMatches | backend/api/bookings.php:79-80 | an id parameter selects a row only when it is a non-empty string of digits, and an id's own decimal text selects it |
| PhpValues.MissingKeys | backend/api/bookings.php:36-37 | the missing list holds exactly the required names that are not keys of the body, in their required order; it is empty exactly when every required key is present |
| PhpValues.IdMatchesText | backend/api/facilities.php:15-16 | an auto-increment id written in decimal selects the row with that id and no other row |
| EmailPattern.Test | Frontend/Sports_Complex/src/components/BookingForm.jsx:50 | the one-pass scan accepts exactly the strings of `^\S+@\S+\.\S+$`: no white space, and non-empty runs before an '@', between it and a later '.', and after that '.' |
| FacilitiesApi.FindById | backend/api/facilities.php:15-17 | a fetched row is in the table and has the requested id; nothing is fetched exactly when no row has that id |
| FacilitiesApi.Get | backend/api/facilities.php:14-29 | with an `id` parameter: the row with that id, or 404 exactly when no row has it; without one: every row |
| FacilitiesApi.CanCreate | backend/api/facilities.php:36 | POST goes ahead only when name and type are both present and neither is null, "" or "0" |
| FacilitiesApi.NewFacility | backend/api/facilities.php:37-46 | the inserted row carries name and type from the request; description and image URL fall back to '', capacity and hourly rate to 0, when absent or null |
| FacilitiesApi.FindCreated | backend/api/facilities.php:14-20 | a GET by the id a POST returned finds exactly the row that POST inserted |
| FacilitiesApi.FacilityTable.Post | backend/api/facilities.php:36-53 | with non-empty name and type: one row appended and 201 with its id, which a later GET finds; otherwise 400 and no change; ids stay ascending |
| FacilitiesApi.Status | backend/api/facilities.php:22-57 | the response code is 2xx exactly for a found row, a listing and a created facility, 404 exactly for an unknown id, and 4xx for every other answer |
| FacilitiesApi.FacilityTable.Handle | backend/api/facilities.php:11-60 | GET reads without changing the table; POST with non-empty name and type appends the row with the next id, advances the counter, answers 201, and a later GET by that id finds the row; otherwise 400; any other method 405; no response but 201 changes the table or the counter |
| BookingsApi.MissingExactly | backend/api/bookings.php:36-37 | the missing list names exactly the absent keys among facility_id, name, email, phone, booking_date and timeslot, in that order |
| BookingsApi.NewBooking | backend/api/bookings.php:51-63 | the inserted row carries the request's six fields; duration falls back to 1 and special requests to '' when absent or null |
| BookingsApi.SlotTaken | backend/api/bookings.php:41-47 | the availability query finds a row exactly when some stored booking equals the request on facility, date and timeslot, all three non-null |
| BookingsApi.SlotTakenBySlotOnly | backend/api/bookings.php:41-47 | two requests that agree on facility, date and timeslot find the slot taken alike, whatever their duration and other fields |
| BookingsApi.InsertKeepsNoDoubleBooking | backend/api/bookings.php:41-66 | inserting only after the availability query found nothing keeps every (facility, date, timeslot) held by at most one booking |
| AutoIncrement.AppendNext | backend/api/bookings.php:51-66 | appending a row that takes the counter's value and advancing the counter keeps every id positive, below the counter and strictly increasing along the table |
| AutoIncrement.KeepSubsequence | backend/api/bookings.php:79-80 | deleting any rows (keeping the rest in order) keeps every id positive, below the counter and strictly increasing |
| BookingsApi.RepeatIsTaken | backend/api/bookings.php:41-50 | once a booking with non-null facility, date and timeslot is stored, the same request finds its slot taken |
| BookingsApi.NullSlotNeverTaken | backend/api/bookings.php:41-47 | a request whose facility, date or timeslot is null never finds its slot taken |
| BookingsApi.DurationDoesNotBlock | backend/api/bookings.php:41-47 | a two-hour booking of 9:00-10:00 does not make 10:00-11:00 of the same facility and day unavailable |
| BookingsApi.JoinOne | backend/api/bookings.php:15-17 | a booking yields exactly one joined row for each facility whose id equals its facility id, in the facilities' order, carrying that facility's name, and no other row |
| BookingsApi.JoinOneAtMostOne | backend/api/bookings.php:15-17 | when facility ids are unique, a booking joins with at most one facility |
| BookingsApi.JoinDistinct | backend/api/bookings.php:14-28 | when booking ids and facility ids are unique, the inner join never lists the same row twice |
| BookingsApi.Join | backend/api/bookings.php:14-28 | a joined row is listed exactly when its booking is stored, has the requested email (if any), and its facility exists; it carries that facility's name |
| BookingsApi.List | backend/api/bookings.php:14-28 | a joined row is listed exactly when its booking is stored, has the `email` parameter's address when one is given, and names an existing facility, whose name it carries |
| BookingsApi.IdGiven | backend/api/bookings.php:78 | a cancellation goes ahead exactly when the form has an `id` that PHP's `empty()` does not reject |
| BookingsApi.Remove | backend/api/bookings.php:79-80 | the remaining rows are exactly those the id does not select, in their original order |
| BookingsApi.RemoveTwice | backend/api/bookings.php:76-91 | after a delete by some id no remaining row has that id, and a second delete by it removes nothing |
| BookingsApi.BookingTable.Create | backend/api/bookings.php:36-71 | 400 with the missing list, or 409 when the slot is taken, both with no change; otherwise one row appended and 201 with its id; the no-double-booking invariant is kept |
| BookingsApi.BookingTable.Cancel | backend/api/bookings.php:76-91 | without an id (absent, "" or "0"): 400 and no change; otherwise the selected rows are removed, 200 if there were any and 404 exactly when there were none |
| BookingsApi.Status | backend/api/bookings.php:48-95 | the response code is 2xx exactly for a listing, a created booking and a cancellation, 409 exactly for a clash, and 4xx for every other answer |
| BookingsApi.BookingTable.Handle | backend/api/bookings.php:11-98 | GET lists the join and changes neither table nor counter; POST answers 400 or 409 with no change, or appends the row with the next id, advances the counter and answers 201; DELETE keeps the counter and cancels as Cancel does; any other method 405; a client-error response never changes the table |
| Scenario.BookTwiceCancelTwice | backend/api/bookings.php:39-91 | on fresh tables: a facility is created with id 1, a booking succeeds with id 1, the same booking again gets 409, cancelling it succeeds, and cancelling it again gets 404 |
| ContactApi.MissingExactly | backend/api/contact.php:14-15 | the missing list names exactly the absent keys among name, email, subject and message, in that order; phone is never listed |
| ContactApi.NewMessage | backend/api/contact.php:19-28 | the stored message carries the four required fields; phone falls back to '' when absent or null |
| ContactApi.NotificationFor | backend/api/contact.php:31-37 | the mail goes to the administrator, its subject is the fixed prefix followed by the subject, and it is sent from the sender's address; the body lists the fields with phone 'N/A' when absent or null |
| ContactApi.MailBody | backend/api/contact.php:33-36 | the mail body is exactly the Name, Email and Phone lines in that order, a blank line, then "Message:" and the message; in particular it holds the Phone line followed by a blank line |
| ContactApi.AbsentPhone | backend/api/contact.php:25-35 | without a phone the stored row has '' while the mail body shows 'N/A' |
| ContactApi.Status | backend/api/contact.php:41-48 | the response code is 2xx exactly when the message was stored and mailed, and 4xx otherwise |
| ContactApi.ContactTable.Handle | backend/api/contact.php:11-50 | POST with all fields: one message stored, its notification produced, 201; a missing field gets 400 with the list and a non-POST 405, both storing and mailing nothing |
| FormErrors.ClearError | Frontend/Sports_Complex/src/components/BookingForm.jsx:61-63 | the edited field no longer shows an error; every other field's message and the set of keys are unchanged |
| BookingFormComponent.InitialData | Frontend/Sports_Complex/src/components/BookingForm.jsx:8-16 | the initial data have no date and a duration of one hour, and fail validation on name, email ("required"), date and time slot |
| BookingFormComponent.SlotAt | Frontend/Sports_Complex/src/components/BookingForm.jsx:31-34 | both the value and the caption of a slot begin with the decimal text of its starting hour |
| BookingFormComponent.SlotStartHour | Frontend/Sports_Complex/src/components/BookingForm.jsx:32 | a slot's value starts with the decimal hour it begins at |
| BookingFormComponent.GenerateSlots | Frontend/Sports_Complex/src/components/BookingForm.jsx:26-36 | exactly 12 slots, the i-th beginning at 8+i, so in increasing order from "8:00-9:00" to "19:00-20:00" |
| BookingFormComponent.FirstAndLastSlot | Frontend/Sports_Complex/src/components/BookingForm.jsx:27-33 | the opening-hour slot is "8:00-9:00" and the slot before closing is "19:00-20:00" |
| BookingFormComponent.Validate | Frontend/Sports_Complex/src/components/BookingForm.jsx:45-56 | errors for name, date and time slot exactly when each is missing; an email error exactly when the email fails the pattern, "required" when empty and "invalid" otherwise; none for phone, duration or special requests |
| BookingFormComponent.ValidIff | Frontend/Sports_Complex/src/components/BookingForm.jsx:45-56 | the form validates exactly when it has a name, a well-formed email, a date and a time slot |
| BookingFormComponent.WithField | Frontend/Sports_Complex/src/components/BookingForm.jsx:58-60 | the named field takes the new text and every other field keeps its value |
| BookingFormComponent.DurationHours | Frontend/Sports_Complex/src/components/BookingForm.jsx:74 | an empty duration counts as 0 hours; any other duration is a number exactly when it is all digits |
| BookingFormComponent.TotalFor | Frontend/Sports_Complex/src/components/BookingForm.jsx:73-75 | without a facility the total is 0 |
| BookingFormComponent.TotalIsRateTimesHours | Frontend/Sports_Complex/src/components/BookingForm.jsx:73-75 | with a facility, h hours total h times its hourly rate, and the initial duration totals one hour's rate |
| BookingFormComponent.BookingForm.constructor | Frontend/Sports_Complex/src/components/BookingForm.jsx:8-20 | empty fields, duration 1, no date, no errors, no slots, not confirmed |
| BookingFormComponent.BookingForm.SyncSlots | Frontend/Sports_Complex/src/components/BookingForm.jsx:23-43 | with a date: the 12 hourly slots are offered and "8:00-9:00" selected; without one: no slots and no time slot; nothing else changes |
| BookingFormComponent.BookingForm.HandleChange | Frontend/Sports_Complex/src/components/BookingForm.jsx:58-64 | only the named field changes, and only that field's error is cleared |
| BookingFormComponent.BookingForm.HandleDateChange | Frontend/Sports_Complex/src/components/BookingForm.jsx:66-71 | the date is set and its error cleared; picking a day offers the 12 slots, the i-th beginning at 8+i, and selects "8:00-9:00", so date and time slot then validate; clearing a set day empties slots and time slot |
| BookingFormComponent.BookingForm.HandleSubmit | Frontend/Sports_Complex/src/components/BookingForm.jsx:77-91 | proceeds exactly when validation finds nothing; otherwise the errors become the validation result; the form data are unchanged |
| BookingFormComponent.BookingForm.Dismiss | Frontend/Sports_Complex/src/components/BookingForm.jsx:119 | back to the form with data, errors and slots as they were |
| ContactFormComponent.Validate | Frontend/Sports_Complex/src/components/ContactForm.jsx:17-28 | errors for name, subject and message exactly when each is empty; an email error exactly when the email fails the pattern, "required" when empty and "invalid" otherwise; never one for phone |
| ContactFormComponent.ValidIff | Frontend/Sports_Complex/src/components/ContactForm.jsx:17-28 | the form validates exactly when name, a well-formed email, subject and message are given, whatever the phone |
| ContactFormComponent.WithField | Frontend/Sports_Complex/src/components/ContactForm.jsx:30-32 | the named field takes the new text and every other field keeps its value |
| ContactFormComponent.ContactForm.constructor | Frontend/Sports_Complex/src/components/ContactForm.jsx:6-15 | five empty fields, no errors, not sent |
| ContactFormComponent.ContactForm.HandleChange | Frontend/Sports_Complex/src/components/ContactForm.jsx:30-37 | only the named field changes, and only that field's error is cleared |
| ContactFormComponent.ContactForm.HandleSubmit | Frontend/Sports_Complex/src/components/ContactForm.jsx:39-61 | blocked with exactly the validation errors when there are any; otherwise marked sent with all five fields reset to '' |
| ContactFormComponent.ContactForm.Dismiss | Frontend/Sports_Complex/src/components/ContactForm.jsx:82 | back to the form with data and errors as they were |
| ContactFormComponent.BlankIsInvalid | Frontend/Sports_Complex/src/components/ContactForm.jsx:17-28 | a blank form, as left by a successful submission, fails on name, email ("required"), subject and message |
| FacilitiesPage.Visible | Frontend/Sports_Complex/src/pages/Facilities.jsx:103-122 | the search stage followed by the type stage keeps exactly what one filter by the conjunction of both keeps, in the same order |
| FacilitiesPage.VisibleMembers | Frontend/Sports_Complex/src/pages/Facilities.jsx:107-119 | a facility is on show exactly when its lower-cased name or description contains the lower-cased term and, unless the filter is 'all', its lower-cased type equals the lower-cased filter |
| FacilitiesPage.VisibleInOrder | Frontend/Sports_Complex/src/pages/Facilities.jsx:104-121 | what is on show is a subsequence of the full list |
| FacilitiesPage.ResetShowsAll | Frontend/Sports_Complex/src/pages/Facilities.jsx:212-215 | after "Reset Filters" (empty term, 'all') the full list is on show |
| BookingPage.FilteredFacilities | Frontend/Sports_Complex/src/pages/Booking.jsx:91-94 | a facility is kept exactly when its lower-cased name or type contains the lower-cased term; the result is a subsequence of the list |
| BookingPage.EmptyTermKeepsAll | Frontend/Sports_Complex/src/pages/Booking.jsx:91-94 | an empty search term keeps the whole list |
| BookingPage.IgnoresTermCase | Frontend/Sports_Complex/src/pages/Booking.jsx:91-94 | upper- or lower-casing the search term does not change the result |
| BookingPage.Initial | Frontend/Sports_Complex/src/pages/Booking.jsx:9-11 | the page opens with nothing selected and every facility on show |
| BookingPage.SetSearch | Frontend/Sports_Complex/src/pages/Booking.jsx:147-150 | after typing a term the cards on show are exactly the facilities matching it; "Clear Search" shows them all; selection and list are untouched |
| BookingPage.SelectFacility | Frontend/Sports_Complex/src/pages/Booking.jsx:162-167 | clicking the k-th card on show selects exactly that facility, which is in the list and matches the search; list and term are unchanged |
| BookingPage.ChangeFacility | Frontend/Sports_Complex/src/pages/Booking.jsx:212 | "Change Facility" clears the selection; list and term are unchanged |
| BookingPage.SelectThenChange | Frontend/Sports_Complex/src/pages/Booking.jsx:160-212 | selecting a facility and then "Change Facility" restores the page state it started from |

## Left out

- HTTP and JSON plumbing are not modelled. This covers CORS headers, reading
  `php://input`, `json_decode`/`json_encode` and `parse_str`. Requests start
  as a decoded map, and responses are a datatype mapped to a status code.
- A body that fails to decode is not modelled. PHP then has `$data` null, and
  `array_keys` fails on it.
- PhpValues.Value: JSON floats, arrays and objects in request bodies are
  not modelled; bodies hold null, booleans, integers and strings.
- The database connection and SQL are not modelled. Tables are in-memory
  sequences, and `lastInsertId` is the class's `nextId` counter.
- Column types, NOT NULL constraints and foreign keys are not modelled. The
  schema file is not part of this model, so a value the request supplies is
  stored as is, and a booking may name a facility that does not exist (the
  join then leaves it out of every listing).
- MySQL's type coercion and case-insensitive collation are not modelled.
  Slot and email comparison is exact equality of values.
- PhpValues.IdMatches: an id parameter selects a row only when it is all
  decimal digits spelling the id. MySQL also coerces strings such as " 1" or
  "1abc" to numbers.
- BookingsApi.Join: states which joined rows are listed, not their order,
  because the query has no ORDER BY. The function itself lists them in
  booking order, then facility order. How often a row appears is stated by
  `JoinOne` per booking and by `JoinDistinct` for tables with unique keys.
- The shape of the `missing` list in JSON is not modelled. `array_diff` keeps
  the original keys, so the list can encode as an object.
- The race between the availability check and the insert under concurrent
  requests is not modelled. The model runs requests one at a time.
- The `mail()` call is not modelled; `ContactTable.Handle` returns the
  notification it would send.
- BookingFormComponent.TotalFor: does not model `toFixed(2)` formatting or
  floating point. The total is an integer, or None where JavaScript gives NaN.
  Duration texts other than "" and plain digits (a sign, a fraction, an
  exponent, surrounding blanks) count as NaN here.
- The date picker, today's date, `minDate` and `toLocaleDateString` are not
  modelled. A date is an opaque optional day.
- `isSubmitting`, the simulated delay, and the commented-out API calls in
  both forms' submit handlers are not modelled. A submission that passes
  validation is treated as succeeding at once.
- Case conversion covers ASCII letters only; JavaScript's full Unicode case
  mapping is not modelled.
- Fetching the facility list on the two pages is not modelled. It is a
  timer around a constant list, so the list is a parameter.
- Rendering, animation, icons and layout are not modelled. This includes the
  presentational components and the facility `rating`, which is a float.
