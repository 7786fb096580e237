/** The structured data of the loans page
    (app/structured-data/LoanStructuredData.tsx): the page's WebPage and, for a
    non-empty MFO list, an ItemList of the MFOs that have a name. */
module LoanStructured {
  import opened Js
  import opened Site
  import opened MfoRecords
  import opened Settings
  import Defaults

  /** The loans page of the current locale. */
  function LoanPageUrl(lang: Lang): string
  {
    BaseUrl + (if lang == Ua then "" else "/ru") + "/loan"
  }

  function LoanItem(mfo: MfoDetails, lang: Lang): (s: FinancialService)
    ensures s.name == Trim(mfo.name) && s.url == ItemUrl(mfo, lang)
    ensures s.logo == mfo.logoUrl && s.image == mfo.logoUrl
    ensures s.mainEntityOfPage == LoanPageUrl(lang)
    ensures s.rating == MakeRating(mfo) && s.provider == MakeProvider(mfo) && s.makesOffer == MakesOffer(mfo)
  {
    FinancialService(Trim(mfo.name), ItemUrl(mfo, lang), mfo.logoUrl, LoanPageUrl(lang), mfo.logoUrl,
      MakeRating(mfo), MakeProvider(mfo), MakesOffer(mfo))
  }

  /** One ListItem per named MFO, in order, numbered from 1. */
  function LoanElements(mfos: seq<MfoDetails>, lang: Lang): (r: seq<ListItem>)
    ensures |r| == |Named(mfos)|
    ensures forall i :: 0 <= i < |r| ==> r[i].position == i + 1 && r[i].item == LoanItem(Named(mfos)[i], lang)
  {
    var named := Named(mfos);
    seq(|named|, i requires 0 <= i < |named| => ListItem(i + 1, LoanItem(named[i], lang)))
  }

  function LoanWebPage(lang: Lang, dates: Defaults.PageDates, settings: SettingsGroup): Defaults.WebPageSchema
  {
    Defaults.DefaultWebPageSchema(
      lang,
      StrOr(Setting(settings, "loan_page_title"),
        if lang == Ua then "Позики онлайн - МФО України" else "Займы онлайн - МФО Украины"),
      StrOr(Setting(settings, "loan_page_description"),
        if lang == Ua
        then "Отримайте позику онлайн від перевірених МФО України. Швидке схвалення, вигідні умови, мінімальні вимоги."
        else "Получите займ онлайн от проверенных МФО Украины. Быстрое одобрение, выгодные условия, минимальные требования."),
      "/loan",
      dates)
  }

  function ListName(lang: Lang, settings: SettingsGroup): string
  {
    StrOr(Setting(settings, "loan_page_title"), if lang == Ua then "Позики онлайн" else "Займы онлайн")
  }

  function ListDescription(lang: Lang, settings: SettingsGroup): string
  {
    StrOr(Setting(settings, "loan_page_description"),
      if lang == Ua then "Список перевірених МФО України" else "Список проверенных МФО Украины")
  }

  /** The page's schemas: the WebPage first, then the ItemList exactly when
      the MFO list is non-empty, even if no MFO in it has a name. */
  function LoanSchemas(lang: Lang, dates: Defaults.PageDates, settings: SettingsGroup, mfos: seq<MfoDetails>)
    : (r: (Defaults.WebPageSchema, Option<ItemList>))
    ensures r.0 == LoanWebPage(lang, dates, settings)
    ensures r.1.Some? <==> |mfos| > 0
    ensures r.1.Some? ==> r.1.value.numberOfItems == |r.1.value.elements| == |Named(mfos)|
    ensures r.1.Some? ==> r.1.value.elements == LoanElements(mfos, lang)
  {
    var elements := LoanElements(mfos, lang);
    var itemList :=
      if |mfos| > 0 then Some(ItemList(ListName(lang, settings), ListDescription(lang, settings), |elements|, elements))
      else None;
    (LoanWebPage(lang, dates, settings), itemList)
  }

  /** Every item names the loans page itself as its main entity: the URL the
      WebPage schema announces. */
  lemma MainEntityIsThePage(lang: Lang, dates: Defaults.PageDates, settings: SettingsGroup, mfo: MfoDetails)
    ensures LoanItem(mfo, lang).mainEntityOfPage == LoanWebPage(lang, dates, settings).url
  {
  }

  /** A list whose every MFO is nameless still gets an ItemList, with no
      items. */
  lemma BlankNamesGiveEmptyList(lang: Lang, dates: Defaults.PageDates, settings: SettingsGroup, mfos: seq<MfoDetails>)
    requires |mfos| > 0 && forall i :: 0 <= i < |mfos| ==> Trim(mfos[i].name) == ""
    ensures LoanSchemas(lang, dates, settings, mfos).1.Some?
    ensures LoanSchemas(lang, dates, settings, mfos).1.value.numberOfItems == 0
  {
    FilterNone(mfos, HasName);
  }
}
