/** The company page's structured data
    (app/structured-data/MicrodataCompany.tsx): a graph of the page's WebPage,
    the MFO as a FinancialService with one Offer per tariff, and a
    LoanOrCredit whose ranges are the extremes over the tariffs. */
module MicrodataCompany {
  import opened Js
  import opened Site
  import opened MfoRecords
  import Utils
  import Defaults
  import MetadataUtils

  datatype Texts = Texts(defaultTitle: string, defaultCompany: string)

  function TextsFor(lang: Lang): Texts
  {
    match lang
    case Ru => Texts("Информация о МФО", "Название компании")
    case Ua => Texts("Інформація про МФО", "Назва компанії")
  }

  /** `Тариф ${i + 1}`, the same in both languages. */
  function TariffName(i: nat): string
  {
    "Тариф " + NatToString(i + 1)
  }

  /** The `@id` shared by the organisation and the loan's provider. */
  function OrganizationId(lang: Lang, company: string): string
  {
    BaseUrl + "/" + (if lang == Ua then "" else "ru/") + "mfo/" + company + "#organization"
  }

  /** `a || b || now` over date strings. */
  function DateOr(fromDates: string, fromData: string, now: string): (d: string)
    ensures fromDates != "" ==> d == fromDates
    ensures fromDates == "" && fromData != "" ==> d == fromData
    ensures fromDates == "" && fromData == "" ==> d == now
  {
    StrOr(fromDates, StrOr(fromData, now))
  }

  /** `dates?.date_published || data.created_at || now` and the same chain
      for the modification date; `now` is `new Date().toISOString()`. */
  function CompanyDates(dates: Option<Defaults.PageDates>, data: MfoDetails, now: string): Defaults.PageDates
  {
    var given := match dates case Some(d) => d case None => Defaults.PageDates("", "");
    Defaults.PageDates(
      DateOr(given.datePublished, data.createdAt, now),
      DateOr(given.dateModified, data.updatedAt, now))
  }

  /** The embedded WebPage: the default schema without its `@context`. */
  function CompanyWebPage(company: string, data: MfoDetails, dates: Option<Defaults.PageDates>, lang: Lang, now: string)
    : (w: Defaults.WebPageSchema)
    ensures w.context.None?
    ensures w.url == BaseUrl + (if lang == Ru then "/ru" else "") + "/mfo/" + company
    ensures w.name == StrOr(data.name, TextsFor(lang).defaultTitle)
    ensures w.dateModified == DateOr(if dates.Some? then dates.value.dateModified else "", data.updatedAt, now)
    ensures w.datePublished == DateOr(if dates.Some? then dates.value.datePublished else "", data.createdAt, now)
  {
    var raw := Defaults.DefaultWebPageSchema(
      lang,
      StrOr(data.name, TextsFor(lang).defaultTitle),
      WebDescription(lang, data.name),
      "/mfo/" + company,
      CompanyDates(dates, data, now));
    raw.(context := None)
  }

  function WebDescription(lang: Lang, name: string): string
  {
    match lang
    case Ru => "Условия займов и отзывы о " + name
    case Ua => "Умови позик та відгуки про " + name
  }

  datatype TariffOffer = TariffOffer(name: string, price: Utils.FieldValue)

  /** The offer made from tariff `i`: its name, else "Тариф i+1". */
  function TariffOfferAt(tariffs: seq<Utils.Item>, i: nat): (o: TariffOffer)
    requires i < |tariffs|
  {
    var name := Utils.FieldOf(tariffs[i], "name");
    TariffOffer(
      if name.StringValue? && name.text != "" then name.text else TariffName(i),
      Utils.FieldOf(tariffs[i], "max_amount"))
  }

  /** `data.tariffs?.map(...) || []`: one offer per tariff, in order. */
  function TariffOffers(tariffs: Option<seq<Utils.Item>>): (r: seq<TariffOffer>)
    ensures tariffs.None? ==> r == []
    ensures tariffs.Some? ==> |r| == |tariffs.value|
    ensures tariffs.Some? ==> forall i :: 0 <= i < |r| ==> r[i] == TariffOfferAt(tariffs.value, i)
  {
    match tariffs
    case None => []
    case Some(ts) => seq(|ts|, i requires 0 <= i < |ts| => TariffOfferAt(ts, i))
  }

  /** `extreme || d`: a missing or zero extreme gives the default. */
  function RangeOr(v: Option<real>, d: real): (r: real)
    ensures v.Some? && v.value != 0.0 ==> r == v.value
    ensures v.None? || v.value == 0.0 ==> r == d
  {
    if v.Some? && v.value != 0.0 then v.value else d
  }

  datatype LoanRanges = LoanRanges(
    termMin: real, termMax: real,
    amountMin: real, amountMax: real,
    rateMin: real, rateMax: real)

  const DefaultRanges: LoanRanges := LoanRanges(1.0, 30.0, 1.0, 999999.0, 1.0, 999.0)

  /** The loan ranges over a tariff list, each extreme falling back to its
      default when no tariff has a usable non-zero value. */
  function RangesOver(ts: seq<Utils.Item>): LoanRanges
  {
    LoanRanges(
      RangeOr(Utils.Extremes(ts, "min_term_days").min, 1.0),
      RangeOr(Utils.Extremes(ts, "max_term_days").max, 30.0),
      RangeOr(Utils.Extremes(ts, "min_amount").min, 1.0),
      RangeOr(Utils.Extremes(ts, "max_amount").max, 999999.0),
      RangeOr(Utils.Extremes(ts, "rate").min, 1.0),
      RangeOr(Utils.Extremes(ts, "rate").max, 999.0))
  }

  datatype Failure = TypeError

  datatype Result<+T> = Success(value: T) | Failed(error: Failure)

  /** The ranges as the component computes them: `getExtremeValuesByKey`
      iterates `data.tariffs` with `for...of`, which throws on an absent list
      (the offers next to it guard the same value with `?.`). */
  function LoanRangesAsWritten(tariffs: Option<seq<Utils.Item>>): (r: Result<LoanRanges>)
    ensures tariffs.None? ==> r.Failed?
    ensures tariffs.Some? ==> r == Success(RangesOver(tariffs.value))
  {
    match tariffs
    case None => Failed(TypeError)
    case Some(ts) => Success(RangesOver(ts))
  }

  /** An MFO record without tariffs makes the component throw. */
  lemma AbsentTariffsThrow()
    ensures LoanRangesAsWritten(None).Failed?
  {
  }

  /** The ranges with an absent tariff list read as an empty one, as the
      offer catalogue reads it. */
  function LoanRangesOf(tariffs: Option<seq<Utils.Item>>): (r: LoanRanges)
    ensures tariffs.Some? ==> r == RangesOver(tariffs.value)
  {
    RangesOver(match tariffs case None => [] case Some(ts) => ts)
  }

  /** With no tariffs every range takes its default, and a present list
      gives what the component gives. */
  lemma LoanRangesDefaults(tariffs: Option<seq<Utils.Item>>)
    ensures tariffs.None? ==> LoanRangesOf(tariffs) == DefaultRanges
    ensures tariffs.Some? ==> LoanRangesAsWritten(tariffs) == Success(LoanRangesOf(tariffs))
  {
  }

  /** A range bound taken from a non-zero extreme is a bound on every usable
      value the tariffs give for that key. */
  lemma RangeBounds(ts: seq<Utils.Item>, key: string, x: real, dMin: real, dMax: real)
    requires Utils.IsValidAt(ts, key, x)
    ensures Utils.Extremes(ts, key).min.Some? && Utils.Extremes(ts, key).max.Some?
    ensures Utils.Extremes(ts, key).min.value != 0.0 ==> RangeOr(Utils.Extremes(ts, key).min, dMin) <= x
    ensures Utils.Extremes(ts, key).max.value != 0.0 ==> x <= RangeOr(Utils.Extremes(ts, key).max, dMax)
  {
    Utils.ExtremesSpec(ts, key);
  }

  datatype Organization = Organization(
    id: string,
    name: string,
    alternateName: string,
    url: string,
    logo: string,
    identifier: string,
    rating: Rating,
    offers: seq<TariffOffer>)

  datatype Loan = Loan(providerId: string, ranges: LoanRanges)

  datatype Graph = Graph(webPage: Defaults.WebPageSchema, organization: Organization, loan: Loan)

  /** The `@graph` of the component. */
  function CompanyGraph(company: string, data: MfoDetails, dates: Option<Defaults.PageDates>, lang: Lang, now: string)
    : (g: Graph)
    ensures g.loan.providerId == g.organization.id == OrganizationId(lang, company)
    ensures g.organization.name == StrOr(data.name, TextsFor(lang).defaultCompany)
    ensures g.organization.url == StrOr(data.redirectUrl, data.officialWebsite)
    ensures g.organization.rating == MakeRating(data)
    ensures g.organization.offers == TariffOffers(data.tariffs)
    ensures g.loan.ranges == LoanRangesOf(data.tariffs)
    ensures g.webPage == CompanyWebPage(company, data, dates, lang, now)
  {
    var id := OrganizationId(lang, company);
    Graph(
      CompanyWebPage(company, data, dates, lang, now),
      Organization(id, StrOr(data.name, TextsFor(lang).defaultCompany), data.legalEntity,
        StrOr(data.redirectUrl, data.officialWebsite), data.logoUrl, data.nbuLicense,
        MakeRating(data), TariffOffers(data.tariffs)),
      Loan(id, LoanRangesOf(data.tariffs)))
  }

  /** The organisation's `@id` is the company page's canonical URL with the
      "#organization" fragment. */
  lemma OrganizationIdIsCanonical(lang: Lang, company: string)
    ensures OrganizationId(lang, company)
         == MetadataUtils.GenerateAlternates(["mfo", company], LangCode(lang)).canonical + "#organization"
  {
    SiteMfoUrlIsCanonical(lang, company);
  }
}
