/** The "was this helpful" author rating widget
    (app/components/InfoHelpfulClient.tsx): five stars that show the hovered,
    the user's or the average rating, and a one-time rating request.

    The asynchronous `handleRate` is split at its `await`: `BeginRate` runs up
    to the request, `FinishRate` applies its outcome. */
module InfoHelpful {
  import opened Js

  /** The arguments of `rateAuthor`. */
  datatype RateRequest = RateRequest(authorId: int, rating: int, language: string)

  /** What `rateAuthor` gives: the new figures, or an error, with or without
      a message (the API reports "already rated" with one). */
  datatype RateOutcome =
    | Rated(userRating: real, average: real, totalRatings: real)
    | RateError(message: string)

  /** `Math.round`: the nearest integer, halves rounded up. */
  function Round(x: real): (n: int)
    ensures n as real - 0.5 <= x < n as real + 0.5
  {
    (x + 0.5).Floor
  }

  /** The request language: "uk" for the "ua" locale, "ru" for any other. */
  function Language(locale: string): (lang: string)
    ensures locale == "ua" ==> lang == "uk"
    ensures locale != "ua" ==> lang == "ru"
  {
    if locale == "ua" then "uk" else "ru"
  }

  /** The `isFilled` rule of the star `star`: after rating, the rounded
      average; else the hovered star when there is one; else the user's
      rating when non-zero; else the rounded average. */
  predicate Filled(hasRated: bool, hoverRating: Option<int>, userRating: real, average: real, star: int)
  {
    if hasRated then star <= Round(average)
    else if hoverRating.Some? && hoverRating.value != 0 then star <= hoverRating.value
    else if userRating != 0.0 then star as real <= userRating
    else star <= Round(average)
  }

  /** The filled stars are always the first ones: a star is filled only when
      every star before it is. */
  lemma FilledIsPrefix(hasRated: bool, hoverRating: Option<int>, userRating: real, average: real, star: int, before: int)
    requires before <= star
    requires Filled(hasRated, hoverRating, userRating, average, star)
    ensures Filled(hasRated, hoverRating, userRating, average, before)
  {
  }

  class RatingWidget {
    /** `randomAuthor?.data?.id`; `None` when there is no author. */
    const authorId: Option<int>
    const locale: string
    var hoverRating: Option<int>
    var userRating: real
    var average: real
    var totalRatings: real
    var isSubmitting: bool
    var hasRated: bool

    constructor(authorId: Option<int>, locale: string, initialAverage: JsNum, initialTotal: JsNum)
      ensures this.authorId == authorId && this.locale == locale
      ensures hoverRating.None? && userRating == 0.0 && !isSubmitting && !hasRated
      ensures average == NumOr(initialAverage, 0.0) && totalRatings == NumOr(initialTotal, 0.0)
    {
      this.authorId := authorId;
      this.locale := locale;
      hoverRating := None;
      userRating := 0.0;
      average := NumOr(initialAverage, 0.0);
      totalRatings := NumOr(initialTotal, 0.0);
      isSubmitting := false;
      hasRated := false;
    }

    /** The guard of `handleRate`: a (truthy) author id, no request in
        flight, and no rating given yet. */
    predicate CanRate()
      reads this
    {
      authorId.Some? && authorId.value != 0 && !isSubmitting && !hasRated
    }

    predicate IsFilled(star: int)
      reads this
    {
      Filled(hasRated, hoverRating, userRating, average, star)
    }

    /** `handleRate` up to the request: nothing happens unless the guard
        holds; then the widget is submitting and the request goes out in the
        page's language. */
    method BeginRate(rating: int) returns (request: Option<RateRequest>)
      modifies this
      ensures request.Some? <==> old(CanRate())
      ensures request.Some? ==>
        request.value == RateRequest(authorId.value, rating, Language(locale)) && isSubmitting
      ensures request.None? ==> isSubmitting == old(isSubmitting)
      ensures hasRated == old(hasRated) && userRating == old(userRating) && average == old(average)
      ensures totalRatings == old(totalRatings) && hoverRating == old(hoverRating)
    {
      if !CanRate() {
        return None;
      }
      isSubmitting := true;
      request := Some(RateRequest(authorId.value, rating, Language(locale)));
    }

    /** `handleRate` after the request: a success takes the new figures and
        marks the widget rated; an error with a message marks it rated and
        keeps the figures; any other error changes nothing. The widget is no
        longer submitting, and a rated widget stays rated. */
    method FinishRate(outcome: RateOutcome)
      modifies this
      ensures !isSubmitting
      ensures old(hasRated) ==> hasRated
      ensures outcome.Rated? ==>
        userRating == outcome.userRating && average == outcome.average
        && totalRatings == outcome.totalRatings && hasRated
      ensures outcome.RateError? ==>
        userRating == old(userRating) && average == old(average) && totalRatings == old(totalRatings)
        && hasRated == (old(hasRated) || outcome.message != "")
      ensures hoverRating == old(hoverRating)
      ensures outcome.Rated? ==> forall star :: IsFilled(star) <==> star <= Round(outcome.average)
      ensures hasRated ==> forall star :: IsFilled(star) <==> star <= Round(average)
    {
      match outcome {
        case Rated(u, a, t) =>
          userRating, average, totalRatings := u, a, t;
          hasRated := true;
        case RateError(message) =>
          if message != "" {
            hasRated := true;
          }
      }
      isSubmitting := false;
    }

    /** `onMouseEnter` of star `star`: the stars up to the hovered one fill;
        hovering is ignored once rated. */
    method MouseEnter(star: int)
      modifies this
      ensures hoverRating == (if old(hasRated) then old(hoverRating) else Some(star))
      ensures hasRated == old(hasRated) && userRating == old(userRating) && average == old(average)
      ensures totalRatings == old(totalRatings) && isSubmitting == old(isSubmitting)
      ensures !hasRated && star != 0 ==> forall n :: IsFilled(n) <==> n <= star
    {
      if !hasRated {
        hoverRating := Some(star);
      }
    }

    /** `onMouseLeave`: the stars fall back to the user's or the average
        rating. */
    method MouseLeave()
      modifies this
      ensures hoverRating == (if old(hasRated) then old(hoverRating) else None)
      ensures hasRated == old(hasRated) && userRating == old(userRating) && average == old(average)
      ensures totalRatings == old(totalRatings) && isSubmitting == old(isSubmitting)
    {
      if !hasRated {
        hoverRating := None;
      }
    }
  }
}
