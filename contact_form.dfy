/** The contact form's submit handler: read the three fields, check them in a fixed
    order, show one notification, and clear the form on success. Nothing is sent anywhere. */
module ContactForm {
  import Email

  /** What `FormData.get` gives for a field: nothing when the form has no such field,
      otherwise its text. */
  datatype Field = Absent | Present(text: string)

  /** JavaScript truthiness of a field value: absent and empty are both false. */
  predicate Filled(f: Field): (r: bool)
    ensures r <==> f != Absent && f != Present("")
  {
    f.Present? && f.text != ""
  }

  datatype Outcome = MissingField | InvalidEmail | Sent

  datatype Kind = Success | Error

  /** The notification shown for an outcome. */
  datatype Notice = Notice(text: string, kind: Kind)

  /** The validation order of the submit handler: a missing field is reported before
      a malformed address, and only a complete form with a valid address is sent. */
  function Validate(name: Field, email: Field, message: Field): (o: Outcome)
    ensures o == MissingField <==> !Filled(name) || !Filled(email) || !Filled(message)
    ensures o == InvalidEmail <==> Filled(name) && Filled(email) && Filled(message) && !Email.EmailShape(email.text)
    ensures o == Sent <==> Filled(name) && Filled(email) && Filled(message) && Email.EmailShape(email.text)
  {
    if !Filled(name) || !Filled(email) || !Filled(message) then MissingField
    else if !Email.IsValidEmail(email.text) then InvalidEmail
    else Sent
  }

  /** The message and style of the notification for each outcome: only a sent form
      gets the success style. */
  function NoticeFor(o: Outcome): (n: Notice)
    ensures n.kind == Success <==> o == Sent
    ensures o == MissingField ==> n.text == "Please fill in all fields"
    ensures o == InvalidEmail ==> n.text == "Please enter a valid email address"
    ensures o == Sent ==> n.text == "Thank you for your message! We'll get back to you soon."
  {
    match o
    case MissingField => Notice("Please fill in all fields", Error)
    case InvalidEmail => Notice("Please enter a valid email address", Error)
    case Sent => Notice("Thank you for your message! We'll get back to you soon.", Success)
  }

  /** An empty field wins over a malformed address. */
  lemma MissingFieldFirst(email: Field, message: Field)
    ensures Validate(Present(""), email, message) == MissingField
    ensures Validate(Absent, email, message) == MissingField
  {
  }

  /** The sample submissions: an empty name, a malformed address, a complete form. */
  lemma EmptyNameIsMissing()
    ensures Validate(Present(""), Present("a@b.com"), Present("hi")) == MissingField
  {
  }

  lemma MalformedAddressIsInvalid()
    ensures Validate(Present("A"), Present("not-an-email"), Present("hi")) == InvalidEmail
  {
    Email.RejectsMalformed();
  }

  lemma CompleteFormIsSent()
    ensures Validate(Present("A"), Present("a@b.com"), Present("hi")) == Sent
  {
    Email.AcceptsPlainAddress();
  }

  /** The form element. Each field is `Absent` when the markup has no control of that name. */
  class Form {
    var name: Field
    var email: Field
    var message: Field

    constructor (name: Field, email: Field, message: Field)
      ensures this.name == name && this.email == email && this.message == message
    {
      this.name := name;
      this.email := email;
      this.message := message;
    }

    /** The submit handler. A sent form is reset to empty fields; a rejected form keeps
        what the user typed. */
    method Submit() returns (o: Outcome, n: Notice)
      modifies this
      ensures o == Validate(old(name), old(email), old(message))
      ensures n == NoticeFor(o)
      ensures o == Sent ==> name == Present("") && email == Present("") && message == Present("")
      ensures o != Sent ==> name == old(name) && email == old(email) && message == old(message)
    {
      o := Validate(name, email, message);
      n := NoticeFor(o);
      if o == Sent {
        name, email, message := Present(""), Present(""), Present("");
      }
    }
  }
}
