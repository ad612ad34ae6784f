/** The contact endpoint: store a message and compose the notification email
    sent to the site's administrator. */
module ContactApi {
  import opened Options
  import opened PhpValues
  import Sequences
  import HttpStatus
  import AutoIncrement
  import Text

  /** A row of `contact_messages`. */
  datatype ContactMessage = ContactMessage(
    id: nat,
    name: Value,
    email: Value,
    phone: Value,
    subject: Value,
    message: Value)

  /** The auto-increment key of a message. */
  function MessageId(m: ContactMessage): nat {
    m.id
  }

  /** The arguments handed to `mail()`. */
  datatype Notification = Notification(to: string, subject: string, body: string, headers: string)

  datatype Response =
    | Sent
    | MissingFields(missing: seq<string>)
    | MethodNotAllowed

  /** The code passed to `http_response_code`: 201 exactly when the message
      was stored and mailed, 4xx otherwise. */
  function Status(r: Response): (code: int)
    ensures HttpStatus.IsSuccessful(code) <==> r.Sent?
    ensures HttpStatus.IsClientError(code) <==> !HttpStatus.IsSuccessful(code)
  {
    match r
    case Sent => HttpStatus.Created
    case MissingFields(_) => HttpStatus.BadRequest
    case MethodNotAllowed => HttpStatus.MethodNotAllowed
  }

  const Required: seq<string> := ["name", "email", "subject", "message"]
  const AdminAddress := "admin@sportzone.com"
  const SubjectPrefix := "New Contact Message: "

  /** The required fields the body lacks, in the order of `Required`. */
  function Missing(body: Body): seq<string> {
    MissingKeys(Required, body)
  }

  /** Exactly the absent keys among name, email, subject and message are
      reported; phone is never required. */
  lemma MissingExactly(body: Body)
    ensures forall k :: k in Missing(body) <==> k in Required && k !in body
    ensures Missing(body) == [] <==> "name" in body && "email" in body && "subject" in body && "message" in body
    ensures "phone" !in Missing(body)
    ensures Sequences.IsSubsequence(Missing(body), Required)
  {
  }

  /** The stored row: phone defaults to '' when absent or null. */
  function NewMessage(id: nat, body: Body): (m: ContactMessage)
    requires Missing(body) == []
    ensures m.id == id && m.name == body["name"] && m.email == body["email"]
    ensures m.subject == body["subject"] && m.message == body["message"]
    ensures m.phone == (if "phone" in body && body["phone"] != Null then body["phone"] else Str(""))
  {
    MissingExactly(body);
    ContactMessage(id, body["name"], body["email"], Coalesce(body, "phone", Str("")),
                   body["subject"], body["message"])
  }

  /** The text of the notification email: the Name, Email and Phone lines,
      a blank line, then "Message:" and the message on the lines below. */
  function MailBody(name: string, email: string, phone: string, message: string): (b: string)
    ensures var lines := "Name: " + name + "\nEmail: " + email + "\nPhone: " + phone + "\n\n";
            var tail := "Message:\n" + message;
            |b| == |lines| + |tail| && b[..|lines|] == lines && b[|lines|..] == tail
    ensures Text.Contains(b, "\nPhone: " + phone + "\n\n")
  {
    var head := "Name: " + name + "\nEmail: " + email;
    var line := "\nPhone: " + phone + "\n\n";
    var lines := head + line;
    var b := lines + ("Message:\n" + message);
    assert b[..|lines|] == lines;
    assert b[|head|..|head| + |line|] == line;
    assert Text.OccursAt(b, line, |head|);
    b
  }

  /** The notification: a subject line after a fixed prefix, and a body of
      Name, Email and Phone lines (phone 'N/A' when absent or null), a blank
      line, and the message; it is sent from the sender's address. */
  function NotificationFor(body: Body): (n: Notification)
    requires Missing(body) == []
    ensures n.to == AdminAddress
    ensures |n.subject| >= |SubjectPrefix| && n.subject[..|SubjectPrefix|] == SubjectPrefix
    ensures n.subject[|SubjectPrefix|..] == ToText(body["subject"])
    ensures n.body == MailBody(ToText(body["name"]), ToText(body["email"]),
                               ToText(Coalesce(body, "phone", Str("N/A"))), ToText(body["message"]))
    ensures n.headers == "From: " + ToText(body["email"])
  {
    MissingExactly(body);
    var text := MailBody(ToText(body["name"]), ToText(body["email"]),
                         ToText(Coalesce(body, "phone", Str("N/A"))), ToText(body["message"]));
    Notification(AdminAddress, SubjectPrefix + ToText(body["subject"]), text, "From: " + ToText(body["email"]))
  }

  /** Without a phone the stored row says '' while the email says 'N/A'. */
  lemma AbsentPhone(id: nat, body: Body)
    requires Missing(body) == [] && ("phone" !in body || body["phone"] == Null)
    ensures NewMessage(id, body).phone == Str("")
    ensures Text.Contains(NotificationFor(body).body, "\nPhone: N/A\n\n")
  {
    MissingExactly(body);
    assert ToText(Coalesce(body, "phone", Str("N/A"))) == "N/A";
    assert "\nPhone: " + "N/A" + "\n\n" == "\nPhone: N/A\n\n";
  }

  /** The `contact_messages` table and its auto-increment counter. */
  class ContactTable {
    var messages: seq<ContactMessage>
    var nextId: nat

    ghost predicate Valid()
      reads this
    {
      AutoIncrement.IdsAscending(MessageId, messages, nextId)
    }

    constructor ()
      ensures Valid() && messages == [] && nextId == 1
    {
      messages, nextId := [], 1;
    }

    /** The endpoint: POST stores the message and returns the notification to
        mail; a missing field gets 400 and any other method 405, both with
        nothing stored or mailed. */
    method Handle(httpMethod: string, body: Body) returns (r: Response, mail: Option<Notification>)
      requires Valid()
      modifies this
      ensures Valid()
      ensures httpMethod != "POST" ==> r == MethodNotAllowed
      ensures httpMethod == "POST" && Missing(body) != [] ==> r == MissingFields(Missing(body))
      ensures httpMethod == "POST" && Missing(body) == [] ==>
        && r == Sent
        && messages == old(messages) + [NewMessage(old(nextId), body)]
        && nextId == old(nextId) + 1
        && mail == Some(NotificationFor(body))
      ensures r != Sent ==> messages == old(messages) && nextId == old(nextId) && mail == None
      ensures HttpStatus.IsSuccessful(Status(r)) <==> r == Sent
    {
      mail := None;
      if httpMethod == "POST" {
        var missing := Missing(body);
        if missing == [] {
          AutoIncrement.AppendNext(MessageId, messages, nextId, NewMessage(nextId, body));
          messages := messages + [NewMessage(nextId, body)];
          nextId := nextId + 1;
          mail := Some(NotificationFor(body));
          r := Sent;
        } else {
          r := MissingFields(missing);
        }
      } else {
        r := MethodNotAllowed;
      }
    }
  }
}
