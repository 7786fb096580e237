/** The MFO record the API returns and the schema.org pieces that several
    list builders make from it alike: the ListItem url fallback, the
    aggregate-rating fallbacks, the provider organisation and the offers of
    the loan catalogue. */
module MfoRecords {
  import opened Js
  import opened Site
  import Utils
  import MetadataUtils

  /** One catalogue offer. `amountFrom`/`amountTo` are the numbers `+` gives
      for the API's values. */
  datatype CatalogOffer = CatalogOffer(
    clientType: string,
    amountFrom: JsNum,
    amountTo: JsNum,
    termFrom: real,
    termTo: real,
    rate: real,
    realAnnualRateFrom: real,
    realAnnualRateTo: real)

  /** An MFO as the API returns it; absent strings are "". */
  datatype MfoDetails = MfoDetails(
    name: string,
    slug: string,
    redirectUrl: string,
    officialWebsite: string,
    logoUrl: string,
    ratingAverage: real,
    ratingCount: nat,
    legalEntity: string,
    nbuLicense: string,
    getMoneyButtonUrl: string,
    phone: string,
    email: string,
    catalogOffers: Option<seq<CatalogOffer>>,
    tariffs: Option<seq<Utils.Item>>,
    isActive: Option<bool>,
    createdAt: string,
    updatedAt: string)

  /** The offer name for a client type. */
  function OfferName(clientType: string): (name: string)
    ensures clientType == "new" ==> name == "Первый кредит"
    ensures clientType == "repeat" ==> name == "Повторный кредит"
    ensures clientType != "new" && clientType != "repeat" ==> name == "Кредит"
  {
    if clientType == "new" then "Первый кредит"
    else if clientType == "repeat" then "Повторный кредит"
    else "Кредит"
  }

  datatype Offer = Offer(
    name: string,
    url: string,
    itemName: string,
    amountMin: JsNum,
    amountMax: JsNum,
    termMin: real,
    termMax: real,
    interestRate: real,
    aprMin: real,
    aprMax: real)

  function MakeOffer(mfo: MfoDetails, offer: CatalogOffer): (o: Offer)
    ensures o.name == OfferName(offer.clientType)
    ensures o.url == mfo.getMoneyButtonUrl && o.itemName == mfo.name
    ensures o.amountMin == offer.amountFrom && o.amountMax == offer.amountTo
    ensures o.termMin == offer.termFrom && o.termMax == offer.termTo && o.interestRate == offer.rate
    ensures o.aprMin == offer.realAnnualRateFrom && o.aprMax == offer.realAnnualRateTo
  {
    Offer(OfferName(offer.clientType), mfo.getMoneyButtonUrl, mfo.name,
      offer.amountFrom, offer.amountTo, offer.termFrom, offer.termTo, offer.rate,
      offer.realAnnualRateFrom, offer.realAnnualRateTo)
  }

  /** `mfo.catalog_offers?.map(...)`: absent when the list is absent,
      otherwise one offer per catalogue offer, in order. */
  function MakesOffer(mfo: MfoDetails): (r: Option<seq<Offer>>)
    ensures r.Some? <==> mfo.catalogOffers.Some?
    ensures r.Some? ==> |r.value| == |mfo.catalogOffers.value|
    ensures r.Some? ==> forall i :: 0 <= i < |r.value| ==> r.value[i] == MakeOffer(mfo, mfo.catalogOffers.value[i])
  {
    match mfo.catalogOffers
    case None => None
    case Some(offers) => Some(seq(|offers|, i requires 0 <= i < |offers| => MakeOffer(mfo, offers[i])))
  }

  /** The provider organisation; `license` is the NBU-licence property, present
      only for a truthy licence. */
  datatype Provider = Provider(name: string, license: Option<string>)

  function MakeProvider(mfo: MfoDetails): (p: Provider)
    ensures p.name == (if mfo.legalEntity != "" then mfo.legalEntity else mfo.name)
    ensures p.license.Some? <==> mfo.nbuLicense != ""
    ensures p.license.Some? ==> p.license.value == mfo.nbuLicense
  {
    Provider(StrOr(mfo.legalEntity, mfo.name), if mfo.nbuLicense != "" then Some(mfo.nbuLicense) else None)
  }

  datatype Rating = Rating(ratingValue: real, ratingCount: real)

  /** `Number(rating_average) || 5` and `Number(rating_count) || 1`. */
  function MakeRating(mfo: MfoDetails): (r: Rating)
    ensures r.ratingValue == (if mfo.ratingAverage != 0.0 then mfo.ratingAverage else 5.0)
    ensures r.ratingCount == (if mfo.ratingCount != 0 then mfo.ratingCount as real else 1.0)
    ensures r.ratingValue != 0.0 && r.ratingCount >= 1.0
  {
    Rating(NumOr(Num(mfo.ratingAverage), 5.0), NumOr(Num(mfo.ratingCount as real), 1.0))
  }

  /** A FinancialService item of an ItemList. */
  datatype FinancialService = FinancialService(
    name: string,
    url: string,
    logo: string,
    mainEntityOfPage: string,
    image: string,
    rating: Rating,
    provider: Provider,
    makesOffer: Option<seq<Offer>>)

  datatype ListItem = ListItem(position: nat, item: FinancialService)

  /** A schema.org ItemList of FinancialService items. */
  datatype ItemList = ItemList(name: string, description: string, numberOfItems: nat, elements: seq<ListItem>)

  /** The page of an MFO on this site: "/mfo/slug", under "/ru" for Russian. */
  function SiteMfoUrl(lang: Lang, slug: string): string
  {
    BaseUrl + (if lang == Ua then "" else "/ru") + "/mfo/" + slug
  }

  /** `redirect_url || official_website || <the site's page of the MFO>`. */
  function ItemUrl(mfo: MfoDetails, lang: Lang): (url: string)
    ensures mfo.redirectUrl != "" ==> url == mfo.redirectUrl
    ensures mfo.redirectUrl == "" && mfo.officialWebsite != "" ==> url == mfo.officialWebsite
    ensures mfo.redirectUrl == "" && mfo.officialWebsite == "" ==> url == SiteMfoUrl(lang, mfo.slug)
  {
    StrOr(mfo.redirectUrl, StrOr(mfo.officialWebsite, SiteMfoUrl(lang, mfo.slug)))
  }

  predicate HasName(mfo: MfoDetails) {
    Trim(mfo.name) != ""
  }

  /** `mfos.filter(mfo => mfo.name?.trim())`. */
  function Named(mfos: seq<MfoDetails>): seq<MfoDetails>
  {
    Filter(mfos, HasName)
  }

  /** The site's own page of an MFO is its canonical URL. */
  lemma SiteMfoUrlIsCanonical(lang: Lang, slug: string)
    ensures SiteMfoUrl(lang, slug)
         == MetadataUtils.GenerateAlternates(["mfo", slug], LangCode(lang)).canonical
  {
    assert Join(["mfo", slug], "/") == "mfo" + "/" + slug;
  }
}
