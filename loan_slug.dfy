/** The ItemList of a loan-category page
    (app/structured-data/LoanSlugStructuredData.tsx): one FinancialService per
    loan, each with one Offer per loan offer. */
module LoanSlug {
  import opened Js
  import opened Site

  datatype LoanOffer = LoanOffer(
    name: string,
    url: string,
    amountMin: real,
    amountMax: real,
    termMin: real,
    termMax: real,
    interestRate: real)

  /** A loan entry; optional numbers are `JsNum`, `legalName` keeps
      `undefined` apart from "" because `??` tells them apart. */
  datatype LoanItem = LoanItem(
    name: string,
    logoUrl: string,
    offers: Option<seq<LoanOffer>>,
    aprMin: JsNum,
    aprMax: JsNum,
    legalName: Option<string>,
    license: string,
    url: string,
    ratingValue: JsNum,
    reviewCount: JsNum)

  datatype OfferProvider = OfferProvider(name: string, license: Option<string>)

  datatype OfferSchema = OfferSchema(
    name: string,
    url: string,
    itemName: string,
    amountMin: real,
    amountMax: real,
    termMin: real,
    termMax: real,
    interestRate: real,
    aprMin: JsNum,
    aprMax: JsNum,
    provider: OfferProvider)

  datatype ServiceSchema = ServiceSchema(
    name: string,
    logo: string,
    makesOffer: Option<seq<OfferSchema>>,
    url: string,
    mainEntityOfPage: string,
    ratingValue: JsNum,
    reviewCount: real,
    image: string)

  datatype ListItem = ListItem(position: nat, item: ServiceSchema)

  datatype ItemList = ItemList(name: string, numberOfItems: nat, elements: seq<ListItem>)

  /** `loan.review_count && loan.review_count > 0 ? loan.review_count : 1`. */
  function ReviewCount(n: JsNum): (r: real)
    ensures r > 0.0
    ensures n.Num? && n.value > 0.0 ==> r == n.value
    ensures !(n.Num? && n.value > 0.0) ==> r == 1.0
  {
    if Truthy(n) && n.value > 0.0 then n.value else 1.0
  }

  function MakeOffer(loan: LoanItem, offer: LoanOffer): (o: OfferSchema)
    ensures o.name == offer.name && o.itemName == offer.name && o.url == offer.url
    ensures o.aprMin == Coalesce(loan.aprMin, 0.0) && o.aprMax == Coalesce(loan.aprMax, 0.0)
    ensures o.provider.name == (match loan.legalName case Some(n) => n case None => loan.name)
    ensures o.provider.license.Some? <==> loan.license != ""
  {
    OfferSchema(
      offer.name, offer.url, offer.name,
      offer.amountMin, offer.amountMax, offer.termMin, offer.termMax, offer.interestRate,
      Coalesce(loan.aprMin, 0.0), Coalesce(loan.aprMax, 0.0),
      OfferProvider(
        match loan.legalName case Some(n) => n case None => loan.name,
        if loan.license != "" then Some(loan.license) else None))
  }

  function MakeService(loan: LoanItem, pageUrl: string): (s: ServiceSchema)
    ensures s.makesOffer.Some? <==> loan.offers.Some?
    ensures s.makesOffer.Some? ==> |s.makesOffer.value| == |loan.offers.value|
    ensures s.makesOffer.Some? ==> forall i :: 0 <= i < |loan.offers.value| ==>
      s.makesOffer.value[i] == MakeOffer(loan, loan.offers.value[i])
    ensures s.ratingValue == Coalesce(loan.ratingValue, 5.0)
    ensures s.reviewCount == ReviewCount(loan.reviewCount)
    ensures s.image == (if loan.logoUrl != "" then loan.logoUrl else LogoUrl)
    ensures s.name == loan.name && s.url == loan.url && s.mainEntityOfPage == pageUrl
  {
    ServiceSchema(
      loan.name,
      loan.logoUrl,
      match loan.offers
        case None => None
        case Some(offers) => Some(seq(|offers|, i requires 0 <= i < |offers| => MakeOffer(loan, offers[i]))),
      loan.url,
      pageUrl,
      Coalesce(loan.ratingValue, 5.0),
      ReviewCount(loan.reviewCount),
      StrOr(loan.logoUrl, LogoUrl))
  }

  function LoanSlugItemList(pageTitle: string, pageUrl: string, loans: seq<LoanItem>): (r: ItemList)
    ensures r.name == pageTitle
    ensures r.numberOfItems == |loans| == |r.elements|
    ensures forall i :: 0 <= i < |loans| ==>
      r.elements[i].position == i + 1 && r.elements[i].item == MakeService(loans[i], pageUrl)
  {
    ItemList(pageTitle, |loans|,
      seq(|loans|, i requires 0 <= i < |loans| => ListItem(i + 1, MakeService(loans[i], pageUrl))))
  }

  /** `??` replaces only an absent value: an explicit rating of 0 and an
      explicit APR of 0 are kept, while a review count of 0 becomes 1. */
  lemma ZeroHandling(loan: LoanItem, pageUrl: string, offer: LoanOffer)
    requires loan.ratingValue == Num(0.0) && loan.aprMin == Num(0.0) && loan.reviewCount == Num(0.0)
    ensures MakeService(loan, pageUrl).ratingValue == Num(0.0)
    ensures MakeOffer(loan, offer).aprMin == Num(0.0)
    ensures MakeService(loan, pageUrl).reviewCount == 1.0
  {
  }
}
