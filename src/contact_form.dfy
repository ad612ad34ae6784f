/** The contact form: its field state, validation, and the reset after a
    successful submission. */
module ContactFormComponent {
  import EmailPattern
  import opened FormErrors

  datatype Field = Name | Email | Phone | Subject | Message

  datatype FormData = FormData(name: string, email: string, phone: string, subject: string, message: string)

  const NameRequired := "Name is required"
  const EmailRequired := "Email is required"
  const EmailInvalid := "Email is invalid"
  const SubjectRequired := "Subject is required"
  const MessageRequired := "Message is required"

  /** The initial state and the state after a successful submission. */
  function Blank(): FormData {
    FormData("", "", "", "", "")
  }

  /** `validate()`: the errors the current form data has. */
  function Validate(d: FormData): (errors: map<Field, string>)
    ensures Name in errors <==> d.name == ""
    ensures Email in errors <==> !EmailPattern.Matches(d.email)
    ensures Email in errors ==> errors[Email] == (if d.email == "" then EmailRequired else EmailInvalid)
    ensures Subject in errors <==> d.subject == ""
    ensures Message in errors <==> d.message == ""
    ensures Phone !in errors
    ensures forall f :: f in errors ==> HasError(errors, f)
  {
    var e1: map<Field, string> := if d.name == "" then map[Name := NameRequired] else map[];
    var e2 := if d.email == "" then e1[Email := EmailRequired]
              else if !EmailPattern.Test(d.email) then e1[Email := EmailInvalid]
              else e1;
    var e3 := if d.subject == "" then e2[Subject := SubjectRequired] else e2;
    if d.message == "" then e3[Message := MessageRequired] else e3
  }

  /** The form passes validation exactly when name, a well-formed email,
      subject and message are all given; the phone never matters. */
  lemma ValidIff(d: FormData)
    ensures Validate(d) == map[] <==>
      d.name != "" && EmailPattern.Matches(d.email) && d.subject != "" && d.message != ""
    ensures forall p :: Validate(d.(phone := p)) == Validate(d)
  {
    var e := Validate(d);
    if d.name == "" { assert Name in e; }
    if !EmailPattern.Matches(d.email) { assert Email in e; }
    if d.subject == "" { assert Subject in e; }
    if d.message == "" { assert Message in e; }
  }

  function TextOf(d: FormData, f: Field): string {
    match f
    case Name => d.name
    case Email => d.email
    case Phone => d.phone
    case Subject => d.subject
    case Message => d.message
  }

  /** `{ ...prev, [name]: value }`. */
  function WithField(d: FormData, f: Field, v: string): (r: FormData)
    ensures TextOf(r, f) == v
    ensures forall g :: g != f ==> TextOf(r, g) == TextOf(d, g)
  {
    match f
    case Name => d.(name := v)
    case Email => d.(email := v)
    case Phone => d.(phone := v)
    case Subject => d.(subject := v)
    case Message => d.(message := v)
  }

  class ContactForm {
    var data: FormData
    var errors: map<Field, string>
    var isSuccess: bool

    constructor ()
      ensures data == Blank() && errors == map[] && !isSuccess
    {
      data := Blank();
      errors := map[];
      isSuccess := false;
    }

    /** `handleChange`: set the named field and clear only that field's error. */
    method HandleChange(field: Field, value: string)
      modifies this
      ensures data == WithField(old(data), field, value)
      ensures errors == ClearError(old(errors), field)
      ensures isSuccess == old(isSuccess)
    {
      data := WithField(data, field, value);
      errors := ClearError(errors, field);
    }

    /** `handleSubmit`: blocked with exactly the validation errors when there
        are any; otherwise marked sent and every field reset to ''. */
    method HandleSubmit() returns (proceeds: bool)
      modifies this
      ensures proceeds <==> Validate(old(data)) == map[]
      ensures !proceeds ==> errors == Validate(old(data)) && data == old(data) && isSuccess == old(isSuccess)
      ensures proceeds ==> data == Blank() && errors == old(errors) && isSuccess
    {
      var validation := Validate(data);
      if |validation| > 0 {
        errors := validation;
        proceeds := false;
      } else {
        isSuccess := true;
        data := Blank();
        proceeds := true;
      }
    }

    /** "Send Another Message": back to the form; after a successful
        submission the form it shows is blank. */
    method Dismiss()
      modifies this
      ensures !isSuccess && data == old(data) && errors == old(errors)
    {
      isSuccess := false;
    }
  }

  /** A blank form never passes: submitting straight after a successful
      submission is blocked. */
  lemma BlankIsInvalid()
    ensures Validate(Blank()) == map[Name := NameRequired, Email := EmailRequired,
                                     Subject := SubjectRequired, Message := MessageRequired]
  {
  }
}
