/** The booking form: its field state, the hourly time slots offered once a
    date is picked, validation, and the price total. */
module BookingFormComponent {
  import opened Options
  import Decimal
  import EmailPattern
  import opened FormErrors
  import opened FacilityCards

  datatype Field = Name | Email | Phone | Date | TimeSlot | Duration | SpecialRequests

  /** A calendar day picked in the date picker; the model never looks inside it. */
  datatype Day = Day(ordinal: int)

  /** `formData`. The duration is kept as the text of the number input; its
      initial value 1 is written "1", which every use of it converts alike. */
  datatype FormData = FormData(
    name: string,
    email: string,
    phone: string,
    date: Option<Day>,
    timeSlot: string,
    duration: string,
    specialRequests: string)

  datatype Slot = Slot(value: string, caption: string)

  const OpeningHour: nat := 8
  const ClosingHour: nat := 20

  const NameRequired := "Name is required"
  const EmailRequired := "Email is required"
  const EmailInvalid := "Email is invalid"
  const DateRequired := "Date is required"
  const TimeSlotRequired := "Time slot is required"

  /** The initial form data: everything empty, no date, duration 1. */
  function InitialData(): (d: FormData)
    ensures d.date.None? && DurationHours(d.duration) == Some(1)
    ensures Validate(d) == map[Name := NameRequired, Email := EmailRequired,
                               Date := DateRequired, TimeSlot := TimeSlotRequired]
  {
    Decimal.ParseNatToString(1);
    FormData("", "", "", None, "", "1", "")
  }

  /** The slot starting at `hour`, e.g. value "9:00-10:00", caption (the option label) "9:00 - 10:00". */
  function SlotAt(hour: nat): (slot: Slot)
    ensures Decimal.LeadingDigits(slot.value) == Decimal.NatToString(hour)
    ensures Decimal.LeadingDigits(slot.caption) == Decimal.NatToString(hour)
  {
    var from, to := Decimal.NatToString(hour), Decimal.NatToString(hour + 1);
    Decimal.LeadingDigitsOf(from, ":00-" + to + ":00");
    Decimal.LeadingDigitsOf(from, ":00 - " + to + ":00");
    assert from + ":00-" + to + ":00" == from + (":00-" + to + ":00");
    assert from + ":00 - " + to + ":00" == from + (":00 - " + to + ":00");
    Slot(from + ":00-" + to + ":00", from + ":00 - " + to + ":00")
  }

  /** The hour a slot value starts at: the number before its first ':'. */
  function StartHour(value: string): Option<nat> {
    Decimal.ParseNat(Decimal.LeadingDigits(value))
  }

  /** A slot's value names its own starting hour. */
  lemma SlotStartHour(hour: nat)
    ensures StartHour(SlotAt(hour).value) == Some(hour)
  {
    Decimal.ParseNatToString(hour);
  }

  /** The slot effect's loop: one slot per hour from opening to closing. */
  method GenerateSlots() returns (slots: seq<Slot>)
    ensures |slots| == ClosingHour - OpeningHour == 12
    ensures forall i :: 0 <= i < |slots| ==> slots[i] == SlotAt(OpeningHour + i)
    ensures forall i :: 0 <= i < |slots| ==> StartHour(slots[i].value) == Some(OpeningHour + i)
    ensures slots[0].value == "8:00-9:00" && slots[|slots| - 1].value == "19:00-20:00"
  {
    slots := [];
    var hour := OpeningHour;
    while hour < ClosingHour
      invariant OpeningHour <= hour <= ClosingHour
      invariant |slots| == hour - OpeningHour
      invariant forall i :: 0 <= i < |slots| ==> slots[i] == SlotAt(OpeningHour + i)
    {
      slots := slots + [SlotAt(hour)];
      hour := hour + 1;
    }
    forall i | 0 <= i < |slots|
      ensures StartHour(slots[i].value) == Some(OpeningHour + i)
    {
      SlotStartHour(OpeningHour + i);
    }
    FirstAndLastSlot();
  }

  /** The first slot offered is 8:00-9:00 and the last 19:00-20:00. */
  lemma FirstAndLastSlot()
    ensures SlotAt(OpeningHour).value == "8:00-9:00"
    ensures SlotAt(ClosingHour - 1).value == "19:00-20:00"
  {
    assert Decimal.NatToString(8) == "8" && Decimal.NatToString(9) == "9";
    assert Decimal.NatToString(19) == "19" && Decimal.NatToString(20) == "20";
  }

  /** `validate()`: the errors the current form data has. */
  function Validate(d: FormData): (errors: map<Field, string>)
    ensures Name in errors <==> d.name == ""
    ensures Email in errors <==> !EmailPattern.Matches(d.email)
    ensures Email in errors ==> errors[Email] == (if d.email == "" then EmailRequired else EmailInvalid)
    ensures Date in errors <==> d.date.None?
    ensures TimeSlot in errors <==> d.timeSlot == ""
    ensures Phone !in errors && Duration !in errors && SpecialRequests !in errors
    ensures forall f :: f in errors ==> HasError(errors, f)
  {
    var e1: map<Field, string> := if d.name == "" then map[Name := NameRequired] else map[];
    var e2 := if d.email == "" then e1[Email := EmailRequired]
              else if !EmailPattern.Test(d.email) then e1[Email := EmailInvalid]
              else e1;
    var e3 := if d.date.None? then e2[Date := DateRequired] else e2;
    if d.timeSlot == "" then e3[TimeSlot := TimeSlotRequired] else e3
  }

  /** The form passes validation exactly when name, a well-formed email, a
      date and a time slot are all given. */
  lemma ValidIff(d: FormData)
    ensures Validate(d) == map[] <==>
      d.name != "" && EmailPattern.Matches(d.email) && d.date.Some? && d.timeSlot != ""
  {
    var e := Validate(d);
    if d.name == "" { assert Name in e; }
    if !EmailPattern.Matches(d.email) { assert Email in e; }
    if d.date.None? { assert Date in e; }
    if d.timeSlot == "" { assert TimeSlot in e; }
  }

  /** The text of a field the generic change handler writes. */
  function TextOf(d: FormData, f: Field): string
    requires f != Date
  {
    match f
    case Name => d.name
    case Email => d.email
    case Phone => d.phone
    case TimeSlot => d.timeSlot
    case Duration => d.duration
    case SpecialRequests => d.specialRequests
  }

  /** `{ ...prev, [name]: value }`. */
  function WithField(d: FormData, f: Field, v: string): (r: FormData)
    requires f != Date
    ensures TextOf(r, f) == v
    ensures forall g :: g != Date && g != f ==> TextOf(r, g) == TextOf(d, g)
    ensures r.date == d.date
  {
    match f
    case Name => d.(name := v)
    case Email => d.(email := v)
    case Phone => d.(phone := v)
    case TimeSlot => d.(timeSlot := v)
    case Duration => d.(duration := v)
    case SpecialRequests => d.(specialRequests := v)
  }

  /** `Number(duration)` for the texts a number input yields: "" is 0, a
      string of digits its value; None stands for NaN. */
  function DurationHours(duration: string): (r: Option<nat>)
    ensures duration == "" ==> r == Some(0)
    ensures duration != "" ==> (r.Some? <==> Decimal.AllDigits(duration))
  {
    if duration == "" then Some(0) else Decimal.ParseNat(duration)
  }

  /** `calculateTotal()` before formatting: rate times duration with a
      facility, 0 without one; None stands for NaN. */
  function TotalFor(facility: Option<FacilityCard>, duration: string): (r: Option<int>)
    ensures facility.None? ==> r == Some(0)
  {
    match facility
    case None => Some(0)
    case Some(f) =>
      match DurationHours(duration)
      case Some(h) => Some(f.rate * h)
      case None => None
  }

  /** Typing `h` hours totals `h` times the hourly rate; the initial duration
      totals one hour's rate. */
  lemma TotalIsRateTimesHours(f: FacilityCard, h: nat)
    ensures TotalFor(Some(f), Decimal.NatToString(h)) == Some(f.rate * h)
    ensures TotalFor(Some(f), InitialData().duration) == Some(f.rate)
  {
    Decimal.ParseNatToString(h);
    Decimal.ParseNatToString(1);
  }

  class BookingForm {
    const facility: Option<FacilityCard>
    var data: FormData
    var errors: map<Field, string>
    var availableSlots: seq<Slot>
    var isSuccess: bool

    /** Mounting: initial state. The slot effect's first run (no date) sets
        no slots and an empty time slot, which the initial state already has. */
    constructor (facility: Option<FacilityCard>)
      ensures this.facility == facility
      ensures data == InitialData() && errors == map[] && availableSlots == [] && !isSuccess
    {
      this.facility := facility;
      data := InitialData();
      errors := map[];
      availableSlots := [];
      isSuccess := false;
    }

    /** The effect on `formData.date`: with a date, offer the hourly slots and
        select the first; without one, offer none and clear the time slot. */
    method SyncSlots()
      modifies this
      ensures data == old(data).(timeSlot := data.timeSlot)
      ensures errors == old(errors) && isSuccess == old(isSuccess)
      ensures data.date.Some? ==> && |availableSlots| == 12
                                  && (forall i :: 0 <= i < 12 ==> availableSlots[i] == SlotAt(OpeningHour + i))
                                  && data.timeSlot == "8:00-9:00"
      ensures data.date.None? ==> availableSlots == [] && data.timeSlot == ""
    {
      if data.date.Some? {
        var slots := GenerateSlots();
        availableSlots := slots;
        data := data.(timeSlot := slots[0].value);
      } else {
        availableSlots := [];
        data := data.(timeSlot := "");
      }
    }

    /** `handleChange`: set the named field and clear that field's error. */
    method HandleChange(field: Field, value: string)
      requires field != Date
      modifies this
      ensures data == WithField(old(data), field, value)
      ensures errors == ClearError(old(errors), field)
      ensures availableSlots == old(availableSlots) && isSuccess == old(isSuccess)
    {
      data := WithField(data, field, value);
      errors := ClearError(errors, field);
    }

    /** `handleDateChange` followed by the slot effect, which runs whenever
        the date changes: a newly picked day is a new Date object, so it runs
        for every pick and for clearing a set date. */
    method HandleDateChange(date: Option<Day>)
      modifies this
      ensures data.date == date
      ensures data == old(data).(date := date, timeSlot := data.timeSlot)
      ensures errors == ClearError(old(errors), Date) && isSuccess == old(isSuccess)
      ensures date.Some? ==> && |availableSlots| == 12
                             && (forall i :: 0 <= i < 12 ==> availableSlots[i] == SlotAt(OpeningHour + i))
                             && data.timeSlot == "8:00-9:00"
      ensures date.None? && old(data.date).Some? ==> availableSlots == [] && data.timeSlot == ""
      ensures date.None? && old(data.date).None? ==>
                availableSlots == old(availableSlots) && data.timeSlot == old(data.timeSlot)
      ensures date.Some? ==> Date !in Validate(data) && TimeSlot !in Validate(data)
    {
      var before := data.date;
      data := data.(date := date);
      errors := ClearError(errors, Date);
      if before.Some? || date.Some? {
        SyncSlots();
      }
    }

    /** `handleSubmit`: go ahead only when validation finds nothing;
        otherwise show exactly the validation errors. */
    method HandleSubmit() returns (proceeds: bool)
      modifies this
      ensures proceeds <==> Validate(old(data)) == map[]
      ensures !proceeds ==> errors == Validate(old(data)) && isSuccess == old(isSuccess)
      ensures proceeds ==> errors == old(errors) && isSuccess
      ensures data == old(data) && availableSlots == old(availableSlots)
    {
      var validation := Validate(data);
      if |validation| > 0 {
        errors := validation;
        proceeds := false;
      } else {
        isSuccess := true;
        proceeds := true;
      }
    }

    /** "Make Another Booking": back to the form, whose data, errors and
        slots are kept as they were. */
    method Dismiss()
      modifies this
      ensures !isSuccess
      ensures data == old(data) && errors == old(errors) && availableSlots == old(availableSlots)
    {
      isSuccess := false;
    }
  }
}
