/** The ItemList of a credits catalogue page
    (app/structured-data/CreditsListStructuredData.tsx): every credit, in
    order, with no filtering. */
module CreditsList {
  import opened Js
  import opened Site
  import opened MfoRecords
  import MetadataUtils

  /** The unprefixed site page of an MFO, whatever the locale. */
  function CreditUrl(slug: string): string
  {
    BaseUrl + "/mfo/" + slug
  }

  function CreditItem(credit: MfoDetails, pageUrl: string): (s: FinancialService)
    ensures s.name == credit.name && s.url == CreditUrl(credit.slug) && s.mainEntityOfPage == pageUrl
    ensures s.rating.ratingValue == (if credit.ratingAverage != 0.0 then credit.ratingAverage else 5.0)
    ensures s.rating.ratingCount == (if credit.ratingCount != 0 then credit.ratingCount as real else 1.0)
    ensures s.provider == MakeProvider(credit) && s.makesOffer == MakesOffer(credit)
  {
    FinancialService(credit.name, CreditUrl(credit.slug), credit.logoUrl, pageUrl, credit.logoUrl,
      MakeRating(credit), MakeProvider(credit), MakesOffer(credit))
  }

  function CreditsItemList(credits: seq<MfoDetails>, pageUrl: string, pageTitle: string): (r: ItemList)
    ensures r.name == pageTitle
    ensures r.numberOfItems == |credits| == |r.elements|
    ensures forall i :: 0 <= i < |credits| ==>
      r.elements[i].position == i + 1 && r.elements[i].item == CreditItem(credits[i], pageUrl)
  {
    ItemList(pageTitle, "", |credits|,
      seq(|credits|, i requires 0 <= i < |credits| => ListItem(i + 1, CreditItem(credits[i], pageUrl))))
  }

  /** The item url is the Ukrainian (default-locale) canonical page of the
      MFO, also on Russian pages. */
  lemma CreditUrlIsUkrainianCanonical(slug: string)
    ensures CreditUrl(slug) == SiteMfoUrl(Ua, slug)
    ensures CreditUrl(slug) == MetadataUtils.GenerateAlternates(["mfo", slug], "ua").canonical
  {
    SiteMfoUrlIsCanonical(Ua, slug);
  }
}
