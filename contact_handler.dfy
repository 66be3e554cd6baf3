/**
 * The server side of the contact form (forms/contact.php): a POST request's
 * four fields are cleaned, checked in a fixed order, and either reported
 * back as an error line or relayed by mail.
 *
 * What the handler takes from PHP's runtime is passed in: the request
 * method, the `$_POST` array, `strip_tags` as a function, the
 * `FILTER_VALIDATE_EMAIL` test as a predicate, the boolean that `mail()`
 * returns, and the `date('Y-m-d H:i:s')` string.
 */
module ContactHandler {
  import opened Text
  import opened Wrappers
  import opened FormFields

  const ReceivingAddress := "mahmoud.adel@ui.ventures"
  const SubjectPrefix := "IV1 Fund Contact Form: "
  const MailSubject := SubjectPrefix + "New Contact Form Submission"
  const BodyIntro := "New contact form submission from IV1 Fund website:\n\n"
  const ContentType := "Content-Type: text/plain; charset=UTF-8"
  /** Every reply other than "OK" starts with this. */
  const ErrorPrefix := "Error: "
  const BadMethodReply := ErrorPrefix + "Invalid request method"
  const MailFailureReply := ErrorPrefix + "Unable to send email. Please try again later."

  /** The arguments of the one `mail()` call. */
  datatype MailCall = MailCall(to: string, subject: string, body: string, headers: string)

  /** PHP `empty()` on a string: the empty string and "0". */
  predicate PhpEmpty(s: string)
  {
    s == "" || s == "0"
  }

  /** `isset($_POST[key]) ? trim(strip_tags($_POST[key])) : ''`. */
  function CleanField(post: map<string, string>, key: string, stripTags: string -> string): string
  {
    if key in post then PhpTrim(stripTags(post[key])) else ""
  }

  /** The error the handler reports when `f` fails its check. */
  function Message(f: Field): string
  {
    match f
    case NameField => "Name is required"
    case EmailField => "Valid email is required"
    case PhoneField => "Phone number is required"
    case MessageField => "Message is required"
  }

  predicate EmailAccepted(email: string, validEmail: string -> bool)
  {
    !PhpEmpty(email) && validEmail(email)
  }

  /** The checks that fail on the cleaned fields: a field fails when it is
      `empty()`, the email also when the filter rejects it. */
  function FieldErrors(name: string, email: string, phone: string, message: string,
                       validEmail: string -> bool): seq<Field>
  {
    FailedChecks(!PhpEmpty(name), EmailAccepted(email, validEmail), !PhpEmpty(phone), !PhpEmpty(message))
  }

  /** The error strings of a list of failed checks, in the same order. */
  function Messages(errs: seq<Field>): (ms: seq<string>)
    ensures |ms| == |errs|
    ensures forall k :: 0 <= k < |errs| ==> ms[k] == Message(errs[k])
  {
    if errs == [] then [] else Messages(errs[..|errs| - 1]) + [Message(errs[|errs| - 1])]
  }

  /** One labelled entry of the mail body. */
  function Entry(key: string, value: string, terminator: string): string
  {
    key + value + terminator
  }

  /** The mail body: an introduction, then the Name, Email, Phone and
      Message entries and the submission time, in that order. */
  function MailBody(name: string, email: string, phone: string, message: string, now: string): string
  {
    BodyIntro + Entry("Name: ", name, "\n") + Entry("Email: ", email, "\n")
      + Entry("Phone: ", phone, "\n") + Entry("Message:\n", message, "\n\n")
      + Entry("Submitted on: ", now, "\n")
  }

  /** The extra mail headers: From and Reply-To, both the sender's address,
      then the content type, each ended by CRLF. */
  function MailHeaders(email: string): string
  {
    Entry("From: ", email, "\r\n") + Entry("Reply-To: ", email, "\r\n") + Entry("", ContentType, "\r\n")
  }

  /** What one check pushes: its message when it fails, nothing when it
      passes. */
  function Pushed(ok: bool, e: Field): seq<string>
  {
    if ok then [] else [Message(e)]
  }

  /** The messages of the failed checks are the four checks' pushes, one
      after the other. */
  lemma MessagesOfChecks(nameOk: bool, emailOk: bool, phoneOk: bool, messageOk: bool)
    ensures Messages(FailedChecks(nameOk, emailOk, phoneOk, messageOk))
      == Pushed(nameOk, NameField) + Pushed(emailOk, EmailField)
         + Pushed(phoneOk, PhoneField) + Pushed(messageOk, MessageField)
  {
    var a := if nameOk then [] else [NameField];
    var b := if emailOk then [] else [EmailField];
    var c := if phoneOk then [] else [PhoneField];
    var d := if messageOk then [] else [MessageField];
    assert FailedChecks(nameOk, emailOk, phoneOk, messageOk) == a + b + c + d;
    MessagesConcat(a, b);
    MessagesConcat(a + b, c);
    MessagesConcat(a + b + c, d);
    MessagesOfOne(nameOk, NameField);
    MessagesOfOne(emailOk, EmailField);
    MessagesOfOne(phoneOk, PhoneField);
    MessagesOfOne(messageOk, MessageField);
  }

  lemma MessagesOfOne(ok: bool, e: Field)
    ensures Messages(if ok then [] else [e]) == Pushed(ok, e)
  {
  }

  /** `Messages` maps each check separately. */
  lemma {:induction false} MessagesConcat(xs: seq<Field>, ys: seq<Field>)
    ensures Messages(xs + ys) == Messages(xs) + Messages(ys)
    decreases |ys|
  {
    if ys == [] {
      assert xs + ys == xs;
    } else {
      var init, last := ys[..|ys| - 1], ys[|ys| - 1];
      assert (xs + ys)[..|xs + ys| - 1] == xs + init;
      MessagesConcat(xs, init);
    }
  }

  /** The validation block of the handler: one message pushed per failed
      check, in the order name, email, phone, message. */
  method CollectErrors(name: string, email: string, phone: string, message: string,
                       validEmail: string -> bool)
    returns (errors: seq<string>)
    ensures errors == Messages(FieldErrors(name, email, phone, message, validEmail))
  {
    var nameOk, emailOk := !PhpEmpty(name), !(PhpEmpty(email) || !validEmail(email));
    var phoneOk, messageOk := !PhpEmpty(phone), !PhpEmpty(message);
    errors := [];
    if !nameOk {
      errors := errors + [Message(NameField)];
    }
    assert errors == Pushed(nameOk, NameField);
    if !emailOk {
      errors := errors + [Message(EmailField)];
    }
    assert errors == Pushed(nameOk, NameField) + Pushed(emailOk, EmailField);
    if !phoneOk {
      errors := errors + [Message(PhoneField)];
    }
    assert errors == Pushed(nameOk, NameField) + Pushed(emailOk, EmailField)
      + Pushed(phoneOk, PhoneField);
    if !messageOk {
      errors := errors + [Message(MessageField)];
    }
    MessagesOfChecks(nameOk, emailOk, phoneOk, messageOk);
  }

  /** The request handler. Returns what it echoes and the `mail()` call it
      makes, if any. */
  method HandleRequest(requestMethod: string, post: map<string, string>,
                       stripTags: string -> string, validEmail: string -> bool,
                       mailSucceeds: bool, now: string)
    returns (output: string, mail: Option<MailCall>)
    ensures output == "OK" <==> requestMethod == "POST" && mail.Some? && mailSucceeds
    ensures output != "OK" ==> IsPrefix(ErrorPrefix, output)
    ensures requestMethod != "POST" ==> output == BadMethodReply && mail == None
    ensures requestMethod == "POST" ==>
      var name := CleanField(post, "name", stripTags);
      var email := CleanField(post, "email", stripTags);
      var phone := CleanField(post, "phone", stripTags);
      var message := CleanField(post, "message", stripTags);
      var errs := FieldErrors(name, email, phone, message, validEmail);
      if errs != [] then
        output == ErrorPrefix + Join(", ", Messages(errs)) && mail == None
      else
        && mail == Some(MailCall(ReceivingAddress, MailSubject,
                                 MailBody(name, email, phone, message, now), MailHeaders(email)))
        && output == (if mailSucceeds then "OK" else MailFailureReply)
  {
    if requestMethod == "POST" {
      var name := CleanField(post, "name", stripTags);
      var email := CleanField(post, "email", stripTags);
      var phone := CleanField(post, "phone", stripTags);
      var message := CleanField(post, "message", stripTags);

      var errors := CollectErrors(name, email, phone, message, validEmail);

      if |errors| == 0 {
        var subject := SubjectPrefix + "New Contact Form Submission";

        var body := BodyIntro;
        body := body + ("Name: " + name + "\n");
        body := body + ("Email: " + email + "\n");
        body := body + ("Phone: " + phone + "\n");
        body := body + ("Message:\n" + message + "\n\n");
        body := body + ("Submitted on: " + now + "\n");

        var headers := "From: " + email + "\r\n";
        headers := headers + ("Reply-To: " + email + "\r\n");
        headers := headers + ("" + ContentType + "\r\n");
        assert body == MailBody(name, email, phone, message, now);
        assert headers == MailHeaders(email);

        mail := Some(MailCall(ReceivingAddress, subject, body, headers));
        if mailSucceeds {
          output := "OK";
        } else {
          output := MailFailureReply;
        }
      } else {
        output := ErrorPrefix + Join(", ", errors);
        mail := None;
      }
    } else {
      output := BadMethodReply;
      mail := None;
    }
  }

  /** Each entry of the mail body sits at the offset reached by the entries
      before it, so the body reads Name, Email, Phone, Message, Submitted on,
      in that order. */
  lemma {:induction false} BodyEntriesInOrder(name: string, email: string, phone: string, message: string, now: string)
    ensures var body := MailBody(name, email, phone, message, now);
      var n := Entry("Name: ", name, "\n");
      var e := Entry("Email: ", email, "\n");
      var p := Entry("Phone: ", phone, "\n");
      var m := Entry("Message:\n", message, "\n\n");
      var t := Entry("Submitted on: ", now, "\n");
      && OccursAt(body, BodyIntro, 0)
      && OccursAt(body, n, |BodyIntro|)
      && OccursAt(body, e, |BodyIntro| + |n|)
      && OccursAt(body, p, |BodyIntro| + |n| + |e|)
      && OccursAt(body, m, |BodyIntro| + |n| + |e| + |p|)
      && OccursAt(body, t, |BodyIntro| + |n| + |e| + |p| + |m|)
      && |body| == |BodyIntro| + |n| + |e| + |p| + |m| + |t|
  {
    var intro := BodyIntro;
    var n := Entry("Name: ", name, "\n");
    var e := Entry("Email: ", email, "\n");
    var p := Entry("Phone: ", phone, "\n");
    var m := Entry("Message:\n", message, "\n\n");
    var t := Entry("Submitted on: ", now, "\n");
    assert MailBody(name, email, phone, message, now) == intro + n + e + p + m + t;
    SixInOrder(intro, n, e, p, m, t);
  }

  /** Six strings written one after another each sit at the offset reached
      by those before them. */
  lemma SixInOrder(a: string, b: string, c: string, d: string, e: string, f: string)
    ensures var s := a + b + c + d + e + f;
      && OccursAt(s, a, 0) && OccursAt(s, b, |a|) && OccursAt(s, c, |a| + |b|)
      && OccursAt(s, d, |a| + |b| + |c|) && OccursAt(s, e, |a| + |b| + |c| + |d|)
      && OccursAt(s, f, |a| + |b| + |c| + |d| + |e|)
  {
    var s1 := a + b;
    var s2 := s1 + c;
    var s3 := s2 + d;
    var s4 := s3 + e;
    OccursAtStart(a, b);
    OccursAtEnd(a, b);
    OccursAtEnd(s1, c);
    OccursAtEnd(s2, d);
    OccursAtEnd(s3, e);
    OccursAtEnd(s4, f);
    OccursExtend(s1, a, 0, c);
    OccursExtend(s1, b, |a|, c);
    OccursExtend(s2, a, 0, d);
    OccursExtend(s2, b, |a|, d);
    OccursExtend(s2, c, |s1|, d);
    OccursExtend(s3, a, 0, e);
    OccursExtend(s3, b, |a|, e);
    OccursExtend(s3, c, |s1|, e);
    OccursExtend(s3, d, |s2|, e);
    OccursExtend(s4, a, 0, f);
    OccursExtend(s4, b, |a|, f);
    OccursExtend(s4, c, |s1|, f);
    OccursExtend(s4, d, |s2|, f);
    OccursExtend(s4, e, |s3|, f);
  }

  lemma OccursAtStart(a: string, b: string)
    ensures OccursAt(a + b, a, 0)
  {
    assert (a + b)[0..|a|] == a;
  }

  lemma OccursAtEnd(a: string, b: string)
    ensures OccursAt(a + b, b, |a|)
  {
    assert (a + b)[|a|..|a| + |b|] == b;
  }

  /** An occurrence stays in place when more text is appended. */
  lemma OccursExtend(a: string, x: string, i: int, b: string)
    requires OccursAt(a, x, i)
    ensures OccursAt(a + b, x, i)
  {
    assert (a + b)[i..i + |x|] == a[i..i + |x|];
  }

  /** The header block holds exactly the three CRLF-terminated lines From,
      Reply-To and Content-Type when the address has no line break, and one
      more line break for each one the address carries: whether a caller can
      inject extra headers rests on the email filter rejecting line breaks. */
  lemma HeaderLineBreaks(email: string)
    ensures Count(MailHeaders(email), '\n') == 3 + 2 * Count(email, '\n')
    ensures Count(MailHeaders(email), '\r') == 3 + 2 * Count(email, '\r')
  {
    HeaderBreaksOf(email, '\n');
    HeaderBreaksOf(email, '\r');
  }

  lemma HeaderBreaksOf(email: string, c: char)
    requires c == '\n' || c == '\r'
    ensures Count(MailHeaders(email), c) == 3 + 2 * Count(email, c)
  {
    HeaderTextsHaveNoBreak(c);
    HeaderLinesBreaks("From: ", "Reply-To: ", email, ContentType, c);
  }

  /** The fixed texts of the header block carry no line break. */
  lemma HeaderTextsHaveNoBreak(c: char)
    requires c == '\n' || c == '\r'
    ensures c !in "From: " && c !in "Reply-To: "
    ensures Count(ContentType, c) == 0
  {
    ContentTypePrintable(c);
  }

  /** The content type is printable text: every control character, line
      breaks included, is absent from it. */
  lemma ContentTypePrintable(c: char)
    requires c < ' '
    ensures c !in ContentType
  {
  }

  /** Three CRLF-terminated lines, two carrying the same value under keys
      without line breaks and the last one a text without any. */
  lemma HeaderLinesBreaks(key1: string, key2: string, value: string, last: string, c: char)
    requires c == '\n' || c == '\r'
    requires c !in key1 && c !in key2 && Count(last, c) == 0
    ensures Count(Entry(key1, value, "\r\n") + Entry(key2, value, "\r\n") + Entry("", last, "\r\n"), c)
      == 3 + 2 * Count(value, c)
  {
    var l1, l2, l3 := Entry(key1, value, "\r\n"), Entry(key2, value, "\r\n"), Entry("", last, "\r\n");
    CountConcat(l1, l2, c);
    CountConcat(l1 + l2, l3, c);
    EntryBreaks(key1, value, c);
    EntryBreaks(key2, value, c);
    EntryBreaks("", last, c);
  }

  /** A CRLF-terminated entry has one more of each line-break character than
      its value, when its key has none. */
  lemma EntryBreaks(key: string, value: string, c: char)
    requires c == '\n' || c == '\r'
    requires c !in key
    ensures Count(Entry(key, value, "\r\n"), c) == Count(value, c) + 1
  {
    assert Count("\r\n", c) == 1;
    CountConcat(key, value, c);
    CountConcat(key + value, "\r\n", c);
  }
}
