/** The reviews page's structured data (app/structured-data/MicrodataReviews.tsx):
    the MFO as a FinancialService whose reviews are listed newest first, then
    most helpful, then best rated. */
module MicrodataReviews {
  import opened Js
  import opened Site
  import Utils
  import Sorting

  /** One review as the API returns it. `createdTime` is
      `new Date(createdAt).getTime()`, which the model takes as given. */
  datatype Review = Review(
    authorName: string,
    createdAt: string,
    createdTime: real,
    reviewText: string,
    rating: JsNum,
    helpfulCount: JsNum,
    adminResponse: string,
    adminResponseAuthor: string)

  /** `reviewsData.data`: absent, some value that is not an array, or a list. */
  datatype ReviewList = NoList | NotAnArray | List(items: seq<Review>)

  datatype MfoRating = MfoRating(ratingAverage: JsNum, ratingCount: JsNum)

  datatype ReviewsResponse = ReviewsResponse(data: ReviewList, mfo: Option<MfoRating>)

  datatype Comment = Comment(text: string, authorName: string)

  datatype ReviewSchema = ReviewSchema(
    authorName: string,
    datePublished: string,
    reviewBody: string,
    ratingValue: real,
    comment: Option<Comment>)

  datatype ServiceSchema = ServiceSchema(
    name: string,
    url: string,
    ratingValue: real,
    reviewCount: real,
    reviews: seq<ReviewSchema>)

  /** The comparator's keys, compared in turn, larger first: the creation
      time, then `helpful_count || 0`, then `rating || 0`. */
  function ReviewKey(r: Review): (k: seq<real>)
    ensures |k| == 3
  {
    [r.createdTime, NumOr(r.helpfulCount, 0.0), NumOr(r.rating, 0.0)]
  }

  /** `[...reviewsData.data].sort(comparator)`. */
  function SortedReviews(items: seq<Review>): seq<Review>
  {
    Sorting.SortDesc(items, ReviewKey)
  }

  /** The mapped review: the author falls back to "Аноним", the rating to
      4.5, and the admin's answer becomes a comment only when it is non-empty. */
  function ReviewOf(r: Review, companyName: string): (s: ReviewSchema)
    ensures s.authorName == StrOr(r.authorName, "Аноним")
    ensures s.datePublished == r.createdAt && s.reviewBody == r.reviewText
    ensures s.ratingValue == Utils.ValidRatingOrCountNumber(r.rating, false)
    ensures s.comment.Some? <==> r.adminResponse != ""
    ensures s.comment.Some? ==>
      s.comment.value.text == r.adminResponse
      && s.comment.value.authorName == StrOr(r.adminResponseAuthor, companyName)
  {
    ReviewSchema(
      StrOr(r.authorName, "Аноним"),
      r.createdAt,
      r.reviewText,
      Utils.ValidRatingOrCountNumber(r.rating, false),
      if r.adminResponse != "" then Some(Comment(r.adminResponse, StrOr(r.adminResponseAuthor, companyName)))
      else None)
  }

  function ReviewsOf(sorted: seq<Review>, companyName: string): (r: seq<ReviewSchema>)
    ensures |r| == |sorted|
    ensures forall i :: 0 <= i < |r| ==> r[i] == ReviewOf(sorted[i], companyName)
  {
    seq(|sorted|, i requires 0 <= i < |sorted| => ReviewOf(sorted[i], companyName))
  }

  function ServiceUrl(lang: Lang, companySlug: string): string
  {
    BaseUrl + "/" + LangCode(lang) + "/mfo/" + companySlug
  }

  /** `MicrodataReviews`: nothing when the response, its list or the list's
      entries are missing; otherwise the service with every review. */
  function ReviewsSchema(response: Option<ReviewsResponse>, companyName: string, companySlug: string, lang: Lang)
    : (r: Option<ServiceSchema>)
    ensures r.Some? <==> response.Some? && response.value.data.List? && response.value.data.items != []
    ensures r.Some? ==>
      && r.value.name == companyName
      && r.value.url == ServiceUrl(lang, companySlug)
      && r.value.reviews == ReviewsOf(SortedReviews(response.value.data.items), companyName)
  {
    match response
    case None => None
    case Some(resp) =>
      if !resp.data.List? || resp.data.items == [] then None
      else
        var mfo := match resp.mfo case Some(m) => m case None => MfoRating(Absent, Absent);
        Some(ServiceSchema(
          companyName,
          ServiceUrl(lang, companySlug),
          NumOr(mfo.ratingAverage, 0.0),
          NumOr(mfo.ratingCount, 0.0),
          ReviewsOf(SortedReviews(resp.data.items), companyName)))
  }

  /** The aggregate falls back to 0, also when the MFO summary is absent. */
  lemma AggregateFallback(resp: ReviewsResponse, companyName: string, companySlug: string, lang: Lang)
    requires resp.data.List? && resp.data.items != []
    ensures var r := ReviewsSchema(Some(resp), companyName, companySlug, lang);
      && r.Some?
      && (resp.mfo.None? ==> r.value.ratingValue == 0.0 && r.value.reviewCount == 0.0)
      && (resp.mfo.Some? && Truthy(resp.mfo.value.ratingAverage) ==> r.value.ratingValue == resp.mfo.value.ratingAverage.value)
      && (resp.mfo.Some? && !Truthy(resp.mfo.value.ratingAverage) ==> r.value.ratingValue == 0.0)
  {
  }

  /** `a` comes no later than `b` in the comparator's order: strictly newer,
      or as new and strictly more helpful, or tied on both and rated at least
      as high. */
  predicate ComesFirst(a: Review, b: Review)
  {
    || a.createdTime > b.createdTime
    || (a.createdTime == b.createdTime && NumOr(a.helpfulCount, 0.0) > NumOr(b.helpfulCount, 0.0))
    || (a.createdTime == b.createdTime && NumOr(a.helpfulCount, 0.0) == NumOr(b.helpfulCount, 0.0)
        && NumOr(a.rating, 0.0) >= NumOr(b.rating, 0.0))
  }

  lemma KeyOrder(a: Review, b: Review)
    ensures Sorting.LexGe(ReviewKey(a), ReviewKey(b)) <==> ComesFirst(a, b)
  {
    var ka, kb := ReviewKey(a), ReviewKey(b);
    assert ka[1..] == [NumOr(a.helpfulCount, 0.0), NumOr(a.rating, 0.0)];
    assert kb[1..] == [NumOr(b.helpfulCount, 0.0), NumOr(b.rating, 0.0)];
    assert ka[1..][1..] == [NumOr(a.rating, 0.0)];
    assert kb[1..][1..] == [NumOr(b.rating, 0.0)];
    assert ka[1..][1..][1..] == [] && kb[1..][1..][1..] == [];
    assert Sorting.LexGe(ka[1..][1..], kb[1..][1..]) <==> NumOr(a.rating, 0.0) >= NumOr(b.rating, 0.0);
    assert Sorting.LexGe(ka[1..], kb[1..]) <==>
      if ka[1] != kb[1] then ka[1] > kb[1] else Sorting.LexGe(ka[1..][1..], kb[1..][1..]);
    assert Sorting.LexGe(ka, kb) <==>
      if ka[0] != kb[0] then ka[0] > kb[0] else Sorting.LexGe(ka[1..], kb[1..]);
  }

  /** The sorted copy holds the same reviews, in the three-key order, and
      reviews tied on all three keys keep their order in the response. */
  lemma SortedReviewsSpec(items: seq<Review>)
    ensures multiset(SortedReviews(items)) == multiset(items)
    ensures |SortedReviews(items)| == |items|
    ensures forall i, j :: 0 <= i < j < |items| ==> ComesFirst(SortedReviews(items)[i], SortedReviews(items)[j])
    ensures forall k :: Sorting.WithKey(SortedReviews(items), ReviewKey, k) == Sorting.WithKey(items, ReviewKey, k)
  {
    var s := SortedReviews(items);
    Sorting.SortDescSorted(items, ReviewKey);
    forall i, j | 0 <= i < j < |items| ensures ComesFirst(s[i], s[j]) {
      KeyOrder(s[i], s[j]);
    }
    forall k ensures Sorting.WithKey(s, ReviewKey, k) == Sorting.WithKey(items, ReviewKey, k) {
      Sorting.SortDescStable(items, ReviewKey, k);
    }
  }

  /** Every review of the response is listed, and every listed review is
      the mapping of one of the response's reviews. */
  lemma EveryReviewListed(items: seq<Review>, companyName: string)
    ensures var out := ReviewsOf(SortedReviews(items), companyName);
      && (forall r :: r in items ==> ReviewOf(r, companyName) in out)
      && (forall i :: 0 <= i < |out| ==> exists r :: r in items && out[i] == ReviewOf(r, companyName))
  {
    var s := SortedReviews(items);
    var out := ReviewsOf(s, companyName);
    SortedReviewsSpec(items);
    forall r | r in items ensures ReviewOf(r, companyName) in out {
      assert r in multiset(s);
      var i :| 0 <= i < |s| && s[i] == r;
      assert out[i] == ReviewOf(r, companyName);
    }
    forall i | 0 <= i < |out| ensures exists r :: r in items && out[i] == ReviewOf(r, companyName) {
      assert s[i] in multiset(items);
    }
  }
}
