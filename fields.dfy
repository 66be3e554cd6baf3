/**
 * The four fields of the contact form and the order in which both the page
 * (js/main.js, `validateForm`) and the handler (forms/contact.php) check
 * them: name, email, phone, message. Each side words its own messages.
 */
module FormFields {

  /** A field, standing for its own failed check. */
  datatype Field = NameField | EmailField | PhoneField | MessageField
  {
    /** The field's place in the checking order. */
    function Rank(): nat
    {
      match this
      case NameField => 0
      case EmailField => 1
      case PhoneField => 2
      case MessageField => 3
    }
  }

  /** The checks that fail, given the verdict of each: in the order name,
      email, phone, message, at most four, none when all pass, each present
      exactly when its check fails. */
  function FailedChecks(nameOk: bool, emailOk: bool, phoneOk: bool, messageOk: bool): (errs: seq<Field>)
    ensures |errs| <= 4
    ensures errs == [] <==> nameOk && emailOk && phoneOk && messageOk
    ensures NameField in errs <==> !nameOk
    ensures EmailField in errs <==> !emailOk
    ensures PhoneField in errs <==> !phoneOk
    ensures MessageField in errs <==> !messageOk
  {
    (if nameOk then [] else [NameField])
    + (if emailOk then [] else [EmailField])
    + (if phoneOk then [] else [PhoneField])
    + (if messageOk then [] else [MessageField])
  }

  /** The failed checks are listed in the order the checks run. */
  lemma FailedChecksInOrder(nameOk: bool, emailOk: bool, phoneOk: bool, messageOk: bool)
    ensures var errs := FailedChecks(nameOk, emailOk, phoneOk, messageOk);
      forall k, l :: 0 <= k < l < |errs| ==> errs[k].Rank() < errs[l].Rank()
  {
  }
}
