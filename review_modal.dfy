/** The review form (app/components/Modals/ReviewModal.tsx): four star
    ratings, name, e-mail and text, a policy checkbox, and a submit that
    validates, sends the review and clears the form on success.

    The asynchronous submit is split at its `await`: `BeginSubmit` runs up to
    the request, `FinishSubmit` applies the request's outcome. */
module ReviewModal {
  import opened Js

  /** The request body of `createReview`. */
  datatype ReviewPayload = ReviewPayload(
    mfoId: int,
    authorName: string,
    authorEmail: string,
    reviewText: string,
    speedRating: int,
    conditionsRating: int,
    supportRating: int,
    websiteRating: int)

  /** What a submit attempt leads to before any request: a toast asking to
      fill every field, a toast asking to accept the policy, or a request. */
  datatype Verdict = FillFields | AcceptPolicy | Send(payload: ReviewPayload)

  datatype Outcome = Succeeded | Failed(message: string)

  /** The toast shown once the request has settled; `SubmitError` is the
      generic message shown when the error carries none. */
  datatype Toast = SubmittedToast | ErrorToast(message: string) | SubmitError

  /** `ratings[key]`, with a key never clicked read as 0. */
  function RatingOf(ratings: map<string, int>, key: string): (r: int)
    ensures key in ratings ==> r == ratings[key]
    ensures key !in ratings ==> r == 0
  {
    if key in ratings then ratings[key] else 0
  }

  /** Every text field is non-empty and every one of the four criteria has a
      non-zero rating. */
  predicate Complete(name: string, email: string, text: string, ratings: map<string, int>)
  {
    && name != "" && email != "" && text != ""
    && RatingOf(ratings, "speed") != 0
    && RatingOf(ratings, "terms") != 0
    && RatingOf(ratings, "supportService") != 0
    && RatingOf(ratings, "usability") != 0
  }

  /** The checks of `handleSubmit`, the fields first and the policy second. */
  function Check(mfoId: int, name: string, email: string, text: string, ratings: map<string, int>, agreePolicy: bool)
    : (v: Verdict)
    ensures v == FillFields <==> !Complete(name, email, text, ratings)
    ensures v == AcceptPolicy <==> Complete(name, email, text, ratings) && !agreePolicy
    ensures v.Send? <==> Complete(name, email, text, ratings) && agreePolicy
    ensures v.Send? ==> v.payload == ReviewPayload(mfoId, name, email, text,
      RatingOf(ratings, "speed"), RatingOf(ratings, "terms"),
      RatingOf(ratings, "supportService"), RatingOf(ratings, "usability"))
  {
    if !Complete(name, email, text, ratings) then FillFields
    else if !agreePolicy then AcceptPolicy
    else Send(ReviewPayload(mfoId, name, email, text,
      RatingOf(ratings, "speed"), RatingOf(ratings, "terms"),
      RatingOf(ratings, "supportService"), RatingOf(ratings, "usability")))
  }

  /** A review that is sent carries non-empty texts and four non-zero
      ratings. */
  lemma SentReviewIsComplete(mfoId: int, name: string, email: string, text: string, ratings: map<string, int>, agreePolicy: bool)
    requires Check(mfoId, name, email, text, ratings, agreePolicy).Send?
    ensures var p := Check(mfoId, name, email, text, ratings, agreePolicy).payload;
      && p.authorName != "" && p.authorEmail != "" && p.reviewText != ""
      && p.speedRating != 0 && p.conditionsRating != 0 && p.supportRating != 0 && p.websiteRating != 0
      && agreePolicy
  {
  }

  class ReviewForm {
    const mfoId: int
    var ratings: map<string, int>
    var agreePolicy: bool
    var name: string
    var email: string
    var text: string
    var isSubmitting: bool

    constructor(mfoId: int)
      ensures this.mfoId == mfoId
      ensures ratings == map[] && !agreePolicy && name == "" && email == "" && text == "" && !isSubmitting
    {
      this.mfoId := mfoId;
      ratings := map[];
      agreePolicy := false;
      name := "";
      email := "";
      text := "";
      isSubmitting := false;
    }

    /** Star `n` of criterion `key` is drawn active. */
    predicate StarActive(n: int, key: string)
      reads this
    {
      n <= RatingOf(ratings, key)
    }

    /** `handleStarClick`: only the clicked criterion changes, and its first
        `value` stars become active. */
    method HandleStarClick(key: string, value: int)
      modifies this
      ensures ratings == old(ratings)[key := value]
      ensures forall k :: k != key ==> RatingOf(ratings, k) == RatingOf(old(ratings), k)
      ensures forall n :: StarActive(n, key) <==> n <= value
      ensures agreePolicy == old(agreePolicy) && name == old(name) && email == old(email)
      ensures text == old(text) && isSubmitting == old(isSubmitting)
    {
      ratings := ratings[key := value];
    }

    /** A click on the checkbox or its label. */
    method TogglePolicy()
      modifies this
      ensures agreePolicy == !old(agreePolicy)
      ensures ratings == old(ratings) && name == old(name) && email == old(email)
      ensures text == old(text) && isSubmitting == old(isSubmitting)
    {
      agreePolicy := !agreePolicy;
    }

    /** `handleSubmit` up to the request: a failed check changes nothing;
        otherwise the form is marked as submitting and the payload is sent. */
    method BeginSubmit() returns (v: Verdict)
      modifies this
      ensures v == Check(mfoId, old(name), old(email), old(text), old(ratings), old(agreePolicy))
      ensures isSubmitting == (v.Send? || old(isSubmitting))
      ensures ratings == old(ratings) && agreePolicy == old(agreePolicy)
      ensures name == old(name) && email == old(email) && text == old(text)
    {
      v := Check(mfoId, name, email, text, ratings, agreePolicy);
      if v.Send? {
        isSubmitting := true;
      }
    }

    /** `handleSubmit` after the request: success clears the whole form,
        policy box included; a failure keeps it for another try. Either way
        the form is no longer submitting. */
    method FinishSubmit(outcome: Outcome) returns (toast: Toast)
      modifies this
      ensures !isSubmitting
      ensures outcome.Succeeded? ==>
        toast == SubmittedToast
        && ratings == map[] && name == "" && email == "" && text == "" && !agreePolicy
      ensures outcome.Failed? ==>
        toast == (if outcome.message != "" then ErrorToast(outcome.message) else SubmitError)
        && ratings == old(ratings) && name == old(name) && email == old(email)
        && text == old(text) && agreePolicy == old(agreePolicy)
    {
      if outcome.Succeeded? {
        toast := SubmittedToast;
        ratings := map[];
        name := "";
        email := "";
        text := "";
        agreePolicy := false;
      } else {
        toast := if outcome.message != "" then ErrorToast(outcome.message) else SubmitError;
      }
      isSubmitting := false;
    }
  }
}
