/** The question form (app/components/Modals/QapModal.tsx): name, e-mail and
    question text, a policy checkbox, and a submit that validates, sends the
    question and clears the texts on success.

    The asynchronous submit is split at its `await`: `BeginSubmit` runs up to
    the request, `FinishSubmit` applies the request's outcome. */
module QapModal {

  /** The request body of `createQuestion`. */
  datatype QuestionPayload = QuestionPayload(mfoId: int, authorName: string, authorEmail: string, questionText: string)

  datatype Verdict = FillFields | AcceptPolicy | Send(payload: QuestionPayload)

  datatype Outcome = Succeeded | Failed(message: string)

  datatype Toast = SubmittedToast | ErrorToast(message: string) | SubmitError

  /** The checks of `handleSubmit`: the three texts first, the policy second. */
  function Check(mfoId: int, name: string, email: string, text: string, agreePolicy: bool): (v: Verdict)
    ensures v == FillFields <==> name == "" || email == "" || text == ""
    ensures v == AcceptPolicy <==> name != "" && email != "" && text != "" && !agreePolicy
    ensures v.Send? <==> name != "" && email != "" && text != "" && agreePolicy
    ensures v.Send? ==> v.payload == QuestionPayload(mfoId, name, email, text)
  {
    if name == "" || email == "" || text == "" then FillFields
    else if !agreePolicy then AcceptPolicy
    else Send(QuestionPayload(mfoId, name, email, text))
  }

  class QuestionForm {
    const mfoId: int
    var agreePolicy: bool
    var name: string
    var email: string
    var text: string
    var isSubmitting: bool

    constructor(mfoId: int)
      ensures this.mfoId == mfoId
      ensures !agreePolicy && name == "" && email == "" && text == "" && !isSubmitting
    {
      this.mfoId := mfoId;
      agreePolicy := false;
      name := "";
      email := "";
      text := "";
      isSubmitting := false;
    }

    /** A click on the checkbox or its label. */
    method TogglePolicy()
      modifies this
      ensures agreePolicy == !old(agreePolicy)
      ensures name == old(name) && email == old(email) && text == old(text) && isSubmitting == old(isSubmitting)
    {
      agreePolicy := !agreePolicy;
    }

    /** `handleSubmit` up to the request: a failed check changes nothing;
        otherwise the form is marked as submitting and the payload is sent. */
    method BeginSubmit() returns (v: Verdict)
      modifies this
      ensures v == Check(mfoId, old(name), old(email), old(text), old(agreePolicy))
      ensures isSubmitting == (v.Send? || old(isSubmitting))
      ensures agreePolicy == old(agreePolicy) && name == old(name) && email == old(email) && text == old(text)
    {
      v := Check(mfoId, name, email, text, agreePolicy);
      if v.Send? {
        isSubmitting := true;
      }
    }

    /** `handleSubmit` after the request: success clears the three texts but
        leaves the policy box as it was; a failure keeps everything. Either
        way the form is no longer submitting. */
    method FinishSubmit(outcome: Outcome) returns (toast: Toast)
      modifies this
      ensures !isSubmitting
      ensures agreePolicy == old(agreePolicy)
      ensures outcome.Succeeded? ==> toast == SubmittedToast && name == "" && email == "" && text == ""
      ensures outcome.Failed? ==>
        toast == (if outcome.message != "" then ErrorToast(outcome.message) else SubmitError)
        && name == old(name) && email == old(email) && text == old(text)
    {
      if outcome.Succeeded? {
        toast := SubmittedToast;
        name := "";
        email := "";
        text := "";
      } else {
        toast := if outcome.message != "" then ErrorToast(outcome.message) else SubmitError;
      }
      isSubmitting := false;
    }
  }

  /** After a successful question the policy box stays ticked, so the next
      question needs only its three texts to be sent. */
  method SecondQuestionKeepsPolicy(form: QuestionForm, name: string, email: string, text: string)
      returns (v: Verdict)
    requires form.agreePolicy
    requires name != "" && email != "" && text != ""
    modifies form
    ensures v == Send(QuestionPayload(form.mfoId, name, email, text))
  {
    var toast := form.FinishSubmit(Succeeded);
    form.name, form.email, form.text := name, email, text;
    v := form.BeginSubmit();
  }
}
