/** The contact form: three text fields, an input handler, and the send
    action that validates, builds a mail link, and clears the form.
    URI component encoding is a parameter; the alert and the navigation are
    returned as an effect instead of being performed. */
module ContactForm {
  import opened Basics

  datatype Field = Name | Email | Message

  datatype Form = Form(name: string, email: string, message: string)

  const EmptyForm: Form := Form("", "", "")

  function Get(f: Form, k: Field): string {
    match k
    case Name => f.name
    case Email => f.email
    case Message => f.message
  }

  /** `handleInputChange`: the field named by the input takes its value. */
  function Change(f: Form, k: Field, v: string): (r: Form)
    ensures Get(r, k) == v
    ensures forall j :: j != k ==> Get(r, j) == Get(f, j)
  {
    match k
    case Name => f.(name := v)
    case Email => f.(email := v)
    case Message => f.(message := v)
  }

  /** Every field is non-empty (an empty string is falsy). */
  predicate Complete(f: Form) {
    f.name != "" && f.email != "" && f.message != ""
  }

  const MissingFieldsAlert: string := "Please fill in all fields before sending."
  const Recipient: string := "adityanair5002@gmail.com"

  const SubjectPrefix: string := "Portfolio Contact: Message from "

  function Subject(name: string): string {
    SubjectPrefix + name
  }

  /** Recovers the sender from a subject line, if it has the form's prefix. */
  function SenderOf(subject: string): Option<string> {
    if |SubjectPrefix| <= |subject| && subject[..|SubjectPrefix|] == SubjectPrefix
    then Some(subject[|SubjectPrefix|..])
    else None
  }

  /** The sender named in the subject is the one who wrote it. */
  lemma SubjectRoundTrip(name: string)
    ensures SenderOf(Subject(name)) == Some(name)
  {
  }

  /** The fixed text around the fields of the message body. */
  const Greeting: string := "Hi Aditya,\n\nI'm reaching out through your portfolio website.\n\nName: "
  const EmailLabel: string := "\nEmail: "
  const MessageLabel: string := "\n\nMessage:\n"
  const Closing: string := "\n\nBest regards,\n"

  function Body(name: string, email: string, message: string): string {
    Greeting + name + EmailLabel + email + MessageLabel + message + Closing + name
  }

  /** The body carries the name, the email, the message and the name again,
      in that order, each at a position fixed by the lengths before it. */
  lemma BodyFieldsInOrder(name: string, email: string, message: string)
    ensures var b := Body(name, email, message);
            var i1 := |Greeting|;
            var i2 := i1 + |name| + |EmailLabel|;
            var i3 := i2 + |email| + |MessageLabel|;
            var i4 := i3 + |message| + |Closing|;
            && |b| == i4 + |name|
            && b[..i1] == Greeting
            && b[i1..i1 + |name|] == name
            && b[i2..i2 + |email|] == email
            && b[i3..i3 + |message|] == message
            && b[i4..] == name
  {
  }

  const MailtoHead: string := "mailto:" + Recipient + "?subject="
  const BodyParam: string := "&body="

  /** The mail link: fixed recipient, encoded subject, then encoded body. */
  function Mailto(subject: string, body: string, encode: string -> string): (url: string)
    ensures |MailtoHead| <= |url| && url[..|MailtoHead|] == MailtoHead
  {
    MailtoHead + encode(subject) + BodyParam + encode(body)
  }

  /** Position of the first `c` in `s`, or `|s|` when there is none. */
  function FirstIndex(s: string, c: char): (i: nat)
    ensures i <= |s|
    ensures i < |s| ==> s[i] == c
    ensures forall j :: 0 <= j < i ==> s[j] != c
    decreases |s|
  {
    if |s| == 0 then 0
    else if s[0] == c then 0
    else 1 + FirstIndex(s[1..], c)
  }

  /** Reads back the encoded subject and body of a mail link. */
  function ParseMailto(url: string): Option<(string, string)> {
    if |MailtoHead| <= |url| && url[..|MailtoHead|] == MailtoHead then
      var query := url[|MailtoHead|..];
      var amp := FirstIndex(query, '&');
      if amp + |BodyParam| <= |query| && query[amp..amp + |BodyParam|] == BodyParam
      then Some((query[..amp], query[amp + |BodyParam|..]))
      else None
    else None
  }

  /** The subject parameter comes first and the body parameter after it: as
      long as the encoded subject holds no `&` (which component encoding
      guarantees), both parameters read back unchanged. */
  lemma MailtoRoundTrip(subject: string, body: string, encode: string -> string)
    requires '&' !in encode(subject)
    ensures ParseMailto(Mailto(subject, body, encode)) == Some((encode(subject), encode(body)))
  {
    var es := encode(subject);
    var eb := encode(body);
    var url := Mailto(subject, body, encode);
    assert url == MailtoHead + (es + BodyParam + eb);
    var query := url[|MailtoHead|..];
    assert query == es + BodyParam + eb;
    FirstIndexAfter(es, BodyParam + eb, '&');
    assert query == es + (BodyParam + eb);
    assert query[|es|..|es| + |BodyParam|] == BodyParam;
    assert query[..|es|] == es;
    assert query[|es| + |BodyParam|..] == eb;
  }

  /** The first `c` of `a + b` is the first `c` of `b` when `a` has none. */
  lemma {:induction false} FirstIndexAfter(a: string, b: string, c: char)
    requires c !in a
    ensures FirstIndex(a + b, c) == |a| + FirstIndex(b, c)
    decreases |a|
  {
    if |a| > 0 {
      assert (a + b)[1..] == a[1..] + b;
      FirstIndexAfter(a[1..], b, c);
    } else {
      assert a + b == b;
    }
  }

  /** What a send does besides updating the form. */
  datatype Effect = Alert(text: string) | Navigate(url: string)

  datatype Sent = Sent(effect: Effect, form: Form)

  /** `handleSendEmail`: an incomplete form only raises the alert and is kept
      as it is; a complete one navigates to the mail link and is cleared. */
  function Send(f: Form, encode: string -> string): (r: Sent)
    ensures r.effect.Alert? <==> !Complete(f)
    ensures !Complete(f) ==> r.effect == Alert(MissingFieldsAlert) && r.form == f
    ensures Complete(f) ==> r.form == EmptyForm
    ensures Complete(f) ==>
              r.effect == Navigate(Mailto(Subject(f.name), Body(f.name, f.email, f.message), encode))
  {
    if !Complete(f) then
      Sent(Alert(MissingFieldsAlert), f)
    else
      Sent(Navigate(Mailto(Subject(f.name), Body(f.name, f.email, f.message), encode)), EmptyForm)
  }

  /** After filling every field and sending, the form is empty again and a
      second send is rejected. */
  lemma FillThenSendClears(n: string, e: string, m: string, encode: string -> string)
    requires n != "" && e != "" && m != ""
    ensures var f := Change(Change(Change(EmptyForm, Name, n), Email, e), Message, m);
            Send(f, encode).form == EmptyForm
            && Send(Send(f, encode).form, encode).effect == Alert(MissingFieldsAlert)
  {
  }
}
