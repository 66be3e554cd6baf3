/**
 * The browser side of the contact form (js/main.js, `initContactForm`):
 * the four field checks, `validateForm`'s ordered error list, the submit
 * gate in front of the network request, and the per-field `is-invalid` /
 * `is-valid` marks set on blur and cleared on input.
 *
 * A field read from `FormData.get` is `None` when the form has no such
 * field; JavaScript treats both `null` and `""` as falsy.
 */
module ContactForm {
  import opened Text
  import opened Wrappers
  import opened FormFields

  /* ---------------------------------------------------------------
   * Email: /^[^\s@]+@[^\s@]+\.[^\s@]+$/
   * ------------------------------------------------------------- */

  /** A character the class `[^\s@]` admits. */
  predicate IsPlain(c: char)
  {
    !IsJsSpace(c) && c != '@'
  }

  predicate AllPlain(s: string)
  {
    forall k :: 0 <= k < |s| ==> IsPlain(s[k])
  }

  /** The regular expression, read as a decomposition of `s`: a non-empty
      plain run, `@`, a non-empty plain run, `.`, a non-empty plain run,
      with `@` at index `i` and that `.` at index `j`. */
  ghost predicate EmailPatternAt(s: string, i: int, j: int)
  {
    && 0 < i && i + 1 < j && j + 1 < |s|
    && s[i] == '@' && s[j] == '.'
    && AllPlain(s[..i]) && AllPlain(s[i + 1..j]) && AllPlain(s[j + 1..])
  }

  ghost predicate MatchesEmailPattern(s: string)
  {
    exists i, j :: EmailPatternAt(s, i, j)
  }

  /** The index of the first `c` in `s`, if any. */
  function IndexOf(s: string, c: char): (r: Option<nat>)
    ensures r.None? <==> c !in s
    ensures r.Some? ==> r.value < |s| && s[r.value] == c && c !in s[..r.value]
  {
    if |s| == 0 then None
    else if s[0] == c then Some(0)
    else
      var r := IndexOf(s[1..], c);
      if r.None? then None
      else
        assert s[..r.value + 1] == [s[0]] + s[1..][..r.value];
        Some(r.value + 1)
  }

  /** The domain part holds a `.` that is neither its first nor its last
      character. */
  predicate HasInnerDot(d: string)
  {
    |d| >= 3 && '.' in d[1..|d| - 1]
  }

  /** The email test as the script applies it: `s` is L@D with L and D
      non-empty, free of whitespace and of `@`, and D holding an inner dot. */
  predicate IsEmail(s: string)
  {
    match IndexOf(s, '@')
    case None => false
    case Some(i) => 0 < i && AllPlain(s[..i]) && AllPlain(s[i + 1..]) && HasInnerDot(s[i + 1..])
  }

  /** Every string the direct L@D test accepts matches the regular
      expression. */
  lemma EmailMatchesPattern(s: string)
    requires IsEmail(s)
    ensures MatchesEmailPattern(s)
  {
    var i := IndexOf(s, '@').value;
    var d := s[i + 1..];
    assert '.' in d[1..|d| - 1];
    var k :| 1 <= k < |d| - 1 && d[k] == '.';
    var j := i + 1 + k;
    assert s[i + 1..j] == d[..k];
    assert s[j + 1..] == d[k + 1..];
    assert AllPlain(s[i + 1..j]) && AllPlain(s[j + 1..]);
    assert EmailPatternAt(s, i, j);
  }

  /** Every string the regular expression matches passes the direct test. */
  lemma PatternIsEmail(s: string, i: int, j: int)
    requires EmailPatternAt(s, i, j)
    ensures IsEmail(s)
  {
    var f := IndexOf(s, '@');
    assert f.Some? && f.value <= i;
    assert f.value == i;
    var d := s[i + 1..];
    forall k | 0 <= k < |d|
      ensures IsPlain(d[k])
    {
      if k < j - i - 1 {
        assert d[k] == s[i + 1..j][k];
      } else if k > j - i - 1 {
        assert d[k] == s[j + 1..][k - (j - i)];
      } else {
        assert d[k] == '.';
      }
    }
    assert d[1..|d| - 1][j - i - 2] == '.';
  }

  /** The direct L@D test accepts exactly the strings the regular expression
      matches. */
  lemma EmailIsPattern(s: string)
    ensures IsEmail(s) <==> MatchesEmailPattern(s)
  {
    if IsEmail(s) {
      EmailMatchesPattern(s);
    }
    if MatchesEmailPattern(s) {
      var i, j :| EmailPatternAt(s, i, j);
      PatternIsEmail(s, i, j);
    }
  }

  /* ---------------------------------------------------------------
   * Phone: the value with \s, -, ( and ) deleted, then
   * /^[\+]?[1-9][\d]{0,15}$/
   * ------------------------------------------------------------- */

  /** The characters `/[\s\-\(\)]/g` deletes. */
  predicate IsPhoneFiller(c: char)
  {
    IsJsSpace(c) || c == '-' || c == '(' || c == ')'
  }

  /** `phone.replace(/[\s\-\(\)]/g, '')`. */
  function CleanPhone(s: string): (r: string)
    ensures |r| <= |s|
    ensures forall c :: c in r ==> c in s && !IsPhoneFiller(c)
    ensures forall c :: c in s && !IsPhoneFiller(c) ==> c in r
  {
    if |s| == 0 then ""
    else if IsPhoneFiller(s[0]) then
      assert forall c :: c in s ==> c == s[0] || c in s[1..];
      CleanPhone(s[1..])
    else
      assert forall c :: c in s ==> c == s[0] || c in s[1..];
      [s[0]] + CleanPhone(s[1..])
  }

  /** The clean-up keeps the order of what it keeps: cleaning a text is
      cleaning its parts one after the other. */
  lemma {:induction false} CleanPhoneConcat(a: string, b: string)
    ensures CleanPhone(a + b) == CleanPhone(a) + CleanPhone(b)
    decreases |a|
  {
    if a == [] {
      assert a + b == b;
    } else {
      assert (a + b)[0] == a[0];
      assert (a + b)[1..] == a[1..] + b;
      CleanPhoneConcat(a[1..], b);
    }
  }

  /** One character is dropped exactly when it is a filler. */
  lemma CleanPhoneOne(c: char)
    ensures CleanPhone([c]) == if IsPhoneFiller(c) then "" else [c]
  {
    assert [c][1..] == [];
  }

  /** `\d`: an ASCII digit. */
  predicate IsDigit(c: char)
  {
    '0' <= c <= '9'
  }

  /** `[1-9][\d]{0,15}`: a non-zero leading digit and at most fifteen more. */
  predicate IsPhoneDigits(d: string)
  {
    && 1 <= |d| <= 16
    && '1' <= d[0] <= '9'
    && forall k :: 1 <= k < |d| ==> IsDigit(d[k])
  }

  /** The phone pattern: an optional `+`, then the digits. A leading `+` can
      only be taken by `[\+]?`, because `[1-9]` does not admit it. */
  predicate IsPhone(c: string)
  {
    if |c| > 0 && c[0] == '+' then IsPhoneDigits(c[1..]) else IsPhoneDigits(c)
  }

  /** An accepted cleaned number holds 1 to 17 characters, a `+` at most
      in front and ASCII digits elsewhere, and never starts with `0`. */
  lemma PhoneShape(c: string)
    requires IsPhone(c)
    ensures 1 <= |c| <= 17
    ensures c[0] != '0'
    ensures forall k :: 0 < k < |c| ==> IsDigit(c[k])
    ensures c[0] == '+' || ('1' <= c[0] <= '9')
  {
    if c[0] == '+' {
      assert forall k :: 0 < k < |c| ==> c[k] == c[1..][k - 1];
    }
  }

  /* ---------------------------------------------------------------
   * The four checks of `validateForm` and its error list
   * ------------------------------------------------------------- */

  datatype FormData = FormData(name: Option<string>, email: Option<string>,
                               phone: Option<string>, message: Option<string>)

  /** `!v` in JavaScript for a `FormData.get` result: null or "". */
  predicate Missing(v: Option<string>)
  {
    v.None? || v.value == ""
  }

  predicate NameOk(v: Option<string>)
  {
    !Missing(v) && |JsTrim(v.value)| >= 2
  }

  predicate EmailOk(v: Option<string>)
  {
    !Missing(v) && IsEmail(v.value)
  }

  predicate PhoneOk(v: Option<string>)
  {
    !Missing(v) && IsPhone(CleanPhone(v.value))
  }

  predicate MessageOk(v: Option<string>)
  {
    !Missing(v) && |JsTrim(v.value)| >= 10
  }

  predicate FormValid(f: FormData)
  {
    NameOk(f.name) && EmailOk(f.email) && PhoneOk(f.phone) && MessageOk(f.message)
  }

  /** The message `validateForm` pushes when `f` fails its check. */
  function Message(f: Field): string
  {
    match f
    case NameField => "Please enter a valid name (at least 2 characters)"
    case EmailField => "Please enter a valid email address"
    case PhoneField => "Please enter a valid phone number"
    case MessageField => "Please enter a message (at least 10 characters)"
  }

  /** The checks that fail on the form `f`. */
  function FormErrors(f: FormData): seq<Field>
  {
    FailedChecks(NameOk(f.name), EmailOk(f.email), PhoneOk(f.phone), MessageOk(f.message))
  }

  /** The messages of a list of failed checks, in the same order. */
  function Messages(errs: seq<Field>): (ms: seq<string>)
    ensures |ms| == |errs|
    ensures forall k :: 0 <= k < |errs| ==> ms[k] == Message(errs[k])
  {
    if errs == [] then []
    else
      var init := errs[..|errs| - 1];
      assert forall k :: 0 <= k < |init| ==> init[k] == errs[k];
      Messages(init) + [Message(errs[|errs| - 1])]
  }

  /** `validateForm(formData)`: pushes one entry per failed check, in the
      order the checks run. Each entry stands for the message it carries
      (`Message`). */
  method ValidateForm(f: FormData) returns (errors: seq<Field>)
    ensures errors == FormErrors(f)
  {
    var nameOk, emailOk, phoneOk, messageOk := NameOk(f.name), EmailOk(f.email), PhoneOk(f.phone), MessageOk(f.message);
    // After each check, `errors` lists the failures so far.
    errors := [];
    if !nameOk {
      errors := errors + [NameField];
    }
    assert errors == (if nameOk then [] else [NameField]);
    if !emailOk {
      errors := errors + [EmailField];
    }
    assert errors == (if nameOk then [] else [NameField]) + (if emailOk then [] else [EmailField]);
    if !phoneOk {
      errors := errors + [PhoneField];
    }
    assert errors == (if nameOk then [] else [NameField]) + (if emailOk then [] else [EmailField])
      + (if phoneOk then [] else [PhoneField]);
    if !messageOk {
      errors := errors + [MessageField];
    }
  }

  /* ---------------------------------------------------------------
   * The form's status elements and the submit gate
   * ------------------------------------------------------------- */

  const SendFailure := "There was an error sending your message. Please try again later."

  /** The three status elements of the form (`.loading`, `.error-message`,
      `.sent-message`) and the number of requests handed to `fetch`. */
  class FormStatus {
    var loadingShown: bool
    var errorShown: bool
    var errorText: string
    var sentShown: bool
    var requestsSent: nat

    constructor ()
      ensures !loadingShown && !errorShown && !sentShown && errorText == "" && requestsSent == 0
    {
      loadingShown, errorShown, sentShown := false, false, false;
      errorText := "";
      requestsSent := 0;
    }

    /** `showError(message)`. */
    method ShowError(message: string)
      modifies this
      ensures !loadingShown && errorShown && !sentShown && errorText == message
      ensures requestsSent == old(requestsSent)
    {
      loadingShown, errorShown, sentShown := false, true, false;
      errorText := message;
    }

    /** `showLoading()`. */
    method ShowLoading()
      modifies this
      ensures loadingShown && !errorShown && !sentShown
      ensures errorText == old(errorText) && requestsSent == old(requestsSent)
    {
      loadingShown, errorShown, sentShown := true, false, false;
    }

    /** `showSuccess()`; the `contactForm.reset()` it ends with is not part
        of this model. */
    method ShowSuccess()
      modifies this
      ensures !loadingShown && !errorShown && sentShown
      ensures errorText == old(errorText) && requestsSent == old(requestsSent)
    {
      loadingShown, errorShown, sentShown := false, false, true;
    }

    /** The submit handler: with errors, show them joined by ". " and send
        nothing; otherwise show the loading state and send one request.
        Returns whether a request was sent. */
    method Submit(f: FormData) returns (sent: bool)
      modifies this
      ensures sent <==> FormValid(f)
      ensures requestsSent == old(requestsSent) + (if sent then 1 else 0)
      ensures !sent ==> !loadingShown && errorShown && !sentShown
                        && errorText == Join(". ", Messages(FormErrors(f)))
      ensures sent ==> loadingShown && !errorShown && !sentShown && errorText == old(errorText)
    {
      var errors := ValidateForm(f);
      if |errors| > 0 {
        ShowError(Join(". ", Messages(errors)));
        return false;
      }
      ShowLoading();
      requestsSent := requestsSent + 1;
      sent := true;
    }

    /** The settlement of a request: `ok` is false when the response is not
        ok or the request failed, both of which end in the `catch`. */
    method RequestSettled(ok: bool)
      modifies this
      ensures ok ==> !loadingShown && !errorShown && sentShown && errorText == old(errorText)
      ensures !ok ==> !loadingShown && errorShown && !sentShown && errorText == SendFailure
      ensures requestsSent == old(requestsSent)
    {
      if ok {
        ShowSuccess();
      } else {
        ShowError(SendFailure);
      }
    }
  }

  /* ---------------------------------------------------------------
   * Live feedback on each input
   * ------------------------------------------------------------- */

  /** The blur verdict: the else-if chain marks the field invalid when its
      own check fails; a field with any other name is never invalid. */
  predicate BlurInvalid(name: string, value: string)
  {
    || (name == "name" && |JsTrim(value)| < 2)
    || (name == "email" && !IsEmail(value))
    || (name == "phone" && !IsPhone(CleanPhone(value)))
    || (name == "message" && |JsTrim(value)| < 10)
  }

  /** On blur, each of the four fields is marked invalid exactly when the
      submit-time check for that field fails on its current value. */
  lemma BlurAgreesWithValidateForm(name: string, value: string)
    ensures name == "name" ==> (BlurInvalid(name, value) <==> !NameOk(Some(value)))
    ensures name == "email" ==> (BlurInvalid(name, value) <==> !EmailOk(Some(value)))
    ensures name == "phone" ==> (BlurInvalid(name, value) <==> !PhoneOk(Some(value)))
    ensures name == "message" ==> (BlurInvalid(name, value) <==> !MessageOk(Some(value)))
    ensures name !in {"name", "email", "phone", "message"} ==> !BlurInvalid(name, value)
  {
    if value == "" {
      assert JsTrim(value) == "";
      assert IndexOf(value, '@').None?;
      assert CleanPhone(value) == "";
    }
  }

  /** One `input`/`textarea` of the form with its two validation marks. */
  class FormInput {
    const name: string
    var value: string
    var invalidMark: bool
    var validMark: bool

    constructor (name: string, value: string)
      ensures this.name == name && this.value == value && !invalidMark && !validMark
    {
      this.name := name;
      this.value := value;
      invalidMark, validMark := false, false;
    }

    /** The `blur` handler. A failing field gains `is-invalid` and keeps
        whatever `is-valid` it had; any other field loses `is-invalid` and
        gains `is-valid`. */
    method Blur()
      modifies this
      ensures value == old(value)
      ensures invalidMark == BlurInvalid(name, value)
      ensures validMark == (old(validMark) || !BlurInvalid(name, value))
    {
      if name == "name" && |JsTrim(value)| < 2 {
        invalidMark := true;
      } else if name == "email" && !IsEmail(value) {
        invalidMark := true;
      } else if name == "phone" && !IsPhone(CleanPhone(value)) {
        invalidMark := true;
      } else if name == "message" && |JsTrim(value)| < 10 {
        invalidMark := true;
      } else {
        invalidMark := false;
        validMark := true;
      }
    }

    /** The `input` handler, run after the user changed the value to
        `newValue`: both marks are removed. */
    method Input(newValue: string)
      modifies this
      ensures value == newValue && !invalidMark && !validMark
    {
      value := newValue;
      invalidMark, validMark := false, false;
    }
  }
}
