/**
 * app/api/contact/route.ts: validate the message, store it, log an activity
 * when an administrator exists, try the two e-mails and answer 200 or 202.
 * The contact and activity tables are lists; the e-mail address check and
 * the two sends are parameters (`isEmail`, and whether each send failed).
 */
module ContactApi {
  import opened Opt
  import opened Http

  datatype ContactBody = Malformed | ContactBody(name: Option<string>, email: Option<string>,
                                                 subject: Option<string>, message: Option<string>)

  datatype Contact = Contact(id: nat, name: string, email: string, subject: string, message: string, isRead: bool)

  datatype Activity = Activity(action: string, item: string, details: string, kind: string, userId: string)

  /** The echo in the reply: never the message. */
  datatype Echo = Echo(id: nat, name: string, email: string, subject: string)

  datatype ContactReply =
    | ValidationFailed(details: seq<string>)
    | ServerError(error: string)
    | Delivered(message: string, data: Echo)
    | Pending(message: string, deliveryNotes: seq<string>, data: Echo)

  const MissingKeyNote: string := "RESEND_API_KEY is not configured; skipping email delivery."
  const NotificationNote: string := "Failed to send contact notification email"
  const ConfirmationNote: string := "Failed to send contact confirmation email"

  /** The issues of one string field with length bounds: missing, too short, too long. */
  function LengthIssues(path: string, v: Option<string>, min: nat, max: nat, tooShort: string, tooLong: string): (issues: seq<string>)
    ensures v.Some? && min <= |v.value| <= max <==> issues == []
    ensures |issues| <= 1
  {
    if v.None? then [path + ": Required"]
    else if |v.value| < min then [path + ": " + tooShort]
    else if |v.value| > max then [path + ": " + tooLong]
    else []
  }

  /** `contactSchema`: every issue, field by field in schema order. */
  function Issues(b: ContactBody, isEmail: string -> bool): (issues: seq<string>)
    requires b.ContactBody?
    ensures issues == [] <==>
      b.name.Some? && 1 <= |b.name.value| <= 100 &&
      b.email.Some? && isEmail(b.email.value) &&
      b.subject.Some? && 1 <= |b.subject.value| <= 200 &&
      b.message.Some? && 10 <= |b.message.value| <= 2000
    ensures |issues| <= 4
  {
    LengthIssues("name", b.name, 1, 100, "Name is required", "Name is too long")
    + (if b.email.None? then ["email: Required"] else if !isEmail(b.email.value) then ["email: Invalid email address"] else [])
    + LengthIssues("subject", b.subject, 1, 200, "Subject is required", "Subject is too long")
    + LengthIssues("message", b.message, 10, 2000, "Message must be at least 10 characters", "Message is too long")
  }

  /** The notes the delivery step leaves, in the order the attempts are made. */
  function DeliveryNotes(hasKey: bool, notificationFails: bool, confirmationFails: bool): (notes: seq<string>)
    ensures !hasKey ==> notes == [MissingKeyNote]
    ensures hasKey ==> |notes| == (if notificationFails then 1 else 0) + (if confirmationFails then 1 else 0)
    ensures hasKey && confirmationFails ==> notes[|notes| - 1] == ConfirmationNote
    ensures hasKey && notificationFails ==> notes[0] == NotificationNote
  {
    if !hasKey then [MissingKeyNote]
    else (if notificationFails then [NotificationNote] else []) + (if confirmationFails then [ConfirmationNote] else [])
  }

  class ContactDesk {
    var contacts: seq<Contact>
    var activities: seq<Activity>

    constructor ()
      ensures contacts == [] && activities == []
    {
      contacts, activities := [], [];
    }

    /**
     * `POST /api/contact`. `adminId` is the first administrator found, if
     * any; the new contact's id is its position in the table.
     */
    method Post(body: ContactBody, isEmail: string -> bool, hasKey: bool, adminId: Option<string>,
                notificationFails: bool, confirmationFails: bool) returns (r: Reply<ContactReply>)
      modifies this
      ensures body.Malformed? ==>
        r == Json(500, ServerError("Failed to send message. Please try again later.")) &&
        contacts == old(contacts) && activities == old(activities)
      ensures body.ContactBody? && Issues(body, isEmail) != [] ==>
        r == Json(400, ValidationFailed(Issues(body, isEmail))) &&
        contacts == old(contacts) && activities == old(activities)
      ensures body.ContactBody? && Issues(body, isEmail) == [] ==>
        var c := Contact(|old(contacts)|, body.name.value, body.email.value, body.subject.value, body.message.value, false);
        var echo := Echo(c.id, c.name, c.email, c.subject);
        var notes := DeliveryNotes(hasKey, notificationFails, confirmationFails);
        contacts == old(contacts) + [c] &&
        activities == old(activities) + (if adminId.Some? then [Activity("Contact form submitted",
          c.name + " - " + c.subject, "New contact message from " + c.email, "CONTACT_SUBMITTED", adminId.value)] else []) &&
        (r.status == 202 <==> |notes| > 0) &&
        (|notes| > 0 ==> r == Json(202, Pending("Message received; email delivery pending or failed.", notes, echo))) &&
        (|notes| == 0 ==> r == Json(200, Delivered("Message sent successfully! Check your email for confirmation.", echo)))
    {
      if body.Malformed? {
        return Json(500, ServerError("Failed to send message. Please try again later."));
      }
      var issues := Issues(body, isEmail);
      if issues != [] {
        return Json(400, ValidationFailed(issues));
      }
      var contact := Contact(|contacts|, body.name.value, body.email.value, body.subject.value, body.message.value, false);
      contacts := contacts + [contact];
      if adminId.Some? {
        activities := activities + [Activity("Contact form submitted", contact.name + " - " + contact.subject,
                                             "New contact message from " + contact.email, "CONTACT_SUBMITTED", adminId.value)];
      }
      var emailSendFailed, deliveryNotes := Deliver(hasKey, notificationFails, confirmationFails);
      var echo := Echo(contact.id, contact.name, contact.email, contact.subject);
      if emailSendFailed {
        r := Json(202, Pending("Message received; email delivery pending or failed.", deliveryNotes, echo));
      } else {
        r := Json(200, Delivered("Message sent successfully! Check your email for confirmation.", echo));
      }
    }
  }

  /** The delivery step: the missing-key warning, or one attempt per e-mail, each noting its failure. */
  method Deliver(hasKey: bool, notificationFails: bool, confirmationFails: bool)
    returns (emailSendFailed: bool, deliveryNotes: seq<string>)
    ensures deliveryNotes == DeliveryNotes(hasKey, notificationFails, confirmationFails)
    ensures emailSendFailed <==> |deliveryNotes| > 0
  {
    emailSendFailed := false;
    deliveryNotes := [];
    if !hasKey {
      emailSendFailed := true;
      deliveryNotes := deliveryNotes + [MissingKeyNote];
    } else {
      if notificationFails {
        emailSendFailed := true;
        deliveryNotes := deliveryNotes + [NotificationNote];
      }
      // the confirmation is attempted whatever became of the notification
      if confirmationFails {
        emailSendFailed := true;
        deliveryNotes := deliveryNotes + [ConfirmationNote];
      }
    }
  }

  /** Without the API key no send is attempted: the failure flags do not matter. */
  lemma MissingKeyIgnoresSends(n1: bool, c1: bool, n2: bool, c2: bool)
    ensures DeliveryNotes(false, n1, c1) == DeliveryNotes(false, n2, c2) == [MissingKeyNote]
  {
  }

  /** A failed notification does not prevent the confirmation's own note. */
  lemma BothFailuresNoted()
    ensures DeliveryNotes(true, true, true) == [NotificationNote, ConfirmationNote]
  {
  }

  /** A message of nine characters is refused with exactly that one issue. */
  lemma NineCharacterMessage(name: string, email: string, subject: string, isEmail: string -> bool)
    requires 1 <= |name| <= 100 && isEmail(email) && 1 <= |subject| <= 200
    ensures Issues(ContactBody(Some(name), Some(email), Some(subject), Some("too short")), isEmail)
         == ["message: Message must be at least 10 characters"]
  {
    assert |"too short"| == 9;
    var b := ContactBody(Some(name), Some(email), Some(subject), Some("too short"));
    assert LengthIssues("name", b.name, 1, 100, "Name is required", "Name is too long") == [];
    assert LengthIssues("subject", b.subject, 1, 200, "Subject is required", "Subject is too long") == [];
    var last := LengthIssues("message", b.message, 10, 2000, "Message must be at least 10 characters", "Message is too long");
    assert last == ["message" + ": " + "Message must be at least 10 characters"];
    assert "message" + ": " + "Message must be at least 10 characters" == "message: Message must be at least 10 characters";
    var none: seq<string> := [];
    assert none + none + none + last == last;
  }

  /** Bounds are inclusive: 100 characters of name and 2000 of message are accepted. */
  lemma BoundsInclusive(name: string, email: string, subject: string, message: string, isEmail: string -> bool)
    requires |name| == 100 && isEmail(email) && |subject| == 200 && |message| == 2000
    ensures Issues(ContactBody(Some(name), Some(email), Some(subject), Some(message)), isEmail) == []
  {
  }
}
