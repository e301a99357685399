/** The booking form's submission state (useFormHandler): four status fields
    changed in steps by a submit, the reply that answers it, the clean-up that
    always follows, and the "submit another" reset. The network exchange is
    replaced by the reply it produces. */
module BookingForm {

  const DefaultFailureMessage: string := "Что-то пошло не так"
  const NetworkFailureMessage: string := "Ошибка сети. Пожалуйста, попробуйте снова."

  /** What the submission endpoint answers: a decoded JSON body with its
      success flag and message (an absent message is the empty string), or a
      failure of the request or of decoding its body. */
  datatype Reply = Ok(success: bool, message: string) | NetworkError

  /** The error line under the form's controls: absent, or showing a message. */
  datatype ErrorLine = NoError | ErrorShown(message: string)

  /** What the booking section renders: the success panel in place of the
      form, or the form, whose submit button is busy or not and which may
      carry an error line. */
  datatype View = SuccessPanel | Form(busy: bool, errorLine: ErrorLine)

  /** data.message || 'Что-то пошло не так'. */
  function ReportedFailureMessage(message: string): (m: string)
    ensures m != ""
    ensures message != "" ==> m == message
    ensures message == "" ==> m == DefaultFailureMessage
  {
    if message != "" then message else DefaultFailureMessage
  }

  /** The message shown after a reply that is not a success. */
  function FailureMessage(reply: Reply): (m: string)
    requires !(reply.Ok? && reply.success)
    ensures m != ""
    ensures reply.NetworkError? ==> m == NetworkFailureMessage
    ensures reply.Ok? && reply.message != "" ==> m == reply.message
    ensures reply.Ok? && reply.message == "" ==> m == DefaultFailureMessage
  {
    match reply
    case Ok(_, message) => ReportedFailureMessage(message)
    case NetworkError => NetworkFailureMessage
  }

  /** The values of the form's controls (name, phone, e-mail, service, date,
      time, message). Every control's default value is empty. */
  class BookingFields {
    var values: seq<string>

    constructor (values: seq<string>)
      ensures this.values == values
    {
      this.values := values;
    }

    /** e.target.reset(): every control goes back to its empty default. */
    method Reset()
      modifies this
      ensures |values| == |old(values)|
      ensures forall i :: 0 <= i < |values| ==> values[i] == ""
    {
      values := seq(|values|, _ => "");
    }
  }

  class FormHandler {
    var isSubmitting: bool
    var isSuccess: bool
    var isError: bool
    var errorMessage: string

    /** The rendered section: the success panel whenever isSuccess is set;
        otherwise the form, with the submit button busy while isSubmitting and
        the error line, showing errorMessage, while isError. */
    function View(): (v: View)
      reads this
      ensures v == SuccessPanel <==> isSuccess
      ensures v.Form? ==> (v.busy <==> isSubmitting)
      ensures v.Form? ==> (v.errorLine.ErrorShown? <==> isError)
      ensures v.Form? && v.errorLine.ErrorShown? ==> v.errorLine.message == errorMessage
      ensures Consistent() && v.Form? && v.errorLine.ErrorShown? ==> v.errorLine.message != ""
    {
      if isSuccess then SuccessPanel
      else Form(isSubmitting, if isError then ErrorShown(errorMessage) else NoError)
    }

    /** Success and error are never shown together, and an error always has a
        message to show. */
    predicate Consistent()
      reads this
    {
      !(isSuccess && isError) && (isError ==> errorMessage != "")
    }

    constructor ()
      ensures !isSubmitting && !isSuccess && !isError && errorMessage == ""
      ensures Consistent() && View() == Form(false, NoError)
    {
      isSubmitting, isSuccess, isError, errorMessage := false, false, false, "";
    }

    /** The synchronous start of handleSubmit. */
    method BeginSubmit()
      modifies this
      ensures isSubmitting && !isError
      ensures isSuccess == old(isSuccess) && errorMessage == old(errorMessage)
      ensures View() == if isSuccess then SuccessPanel else Form(true, NoError)
      ensures old(Consistent()) ==> Consistent()
    {
      isSubmitting := true;
      isError := false;
    }

    /** The try/catch body once the reply is in: a success shows the success
        panel and clears the form's controls; a reported failure or a network
        failure shows an error with its message. */
    method Settle(reply: Reply, form: BookingFields)
      modifies this, form
      ensures isSubmitting == old(isSubmitting)
      ensures reply.Ok? && reply.success ==>
        isSuccess && isError == old(isError) && errorMessage == old(errorMessage)
        && |form.values| == |old(form.values)|
        && forall i :: 0 <= i < |form.values| ==> form.values[i] == ""
      ensures !(reply.Ok? && reply.success) ==>
        isSuccess == old(isSuccess) && isError && errorMessage == FailureMessage(reply)
        && form.values == old(form.values)
      ensures View() == if isSuccess then SuccessPanel
        else Form(isSubmitting, ErrorShown(FailureMessage(reply)))
    {
      if reply.Ok? && reply.success {
        isSuccess := true;
        form.Reset();
      } else {
        isError := true;
        errorMessage := FailureMessage(reply);
      }
    }

    /** The finally clause. */
    method Finish()
      modifies this
      ensures !isSubmitting
      ensures isSuccess == old(isSuccess) && isError == old(isError) && errorMessage == old(errorMessage)
    {
      isSubmitting := false;
    }

    /** One whole submission answered by reply. Submitting is only offered
        while the form (not the success panel) is shown, that is while
        isSuccess is false; from there the section ends on the success panel
        or on the idle form with the error line the reply calls for. */
    method HandleSubmit(reply: Reply, form: BookingFields)
      modifies this, form
      ensures !isSubmitting
      ensures reply.Ok? && reply.success ==>
        isSuccess && !isError && errorMessage == old(errorMessage)
        && |form.values| == |old(form.values)|
        && forall i :: 0 <= i < |form.values| ==> form.values[i] == ""
      ensures !(reply.Ok? && reply.success) ==>
        isSuccess == old(isSuccess) && isError && errorMessage == FailureMessage(reply)
        && form.values == old(form.values)
      ensures !old(isSuccess) ==> Consistent()
      ensures !old(isSuccess) ==>
        View() == if reply.Ok? && reply.success then SuccessPanel else Form(false, ErrorShown(FailureMessage(reply)))
    {
      BeginSubmit();
      Settle(reply, form);
      Finish();
    }

    /** resetForm: back to the empty form; a submission in flight keeps its
        progress flag. */
    method ResetForm()
      modifies this
      ensures !isSuccess && !isError && errorMessage == ""
      ensures isSubmitting == old(isSubmitting)
      ensures Consistent()
      ensures View() == Form(isSubmitting, NoError)
    {
      isSuccess := false;
      isError := false;
      errorMessage := "";
    }
  }
}
