/** The structured data of the MFO rating page
    (app/structured-data/MfoPageStructuredData.tsx): the page's WebPage, and an
    ItemList of the MFOs ordered by Wilson score, one per slug. */
module MfoPage {
  import opened Js
  import opened Site
  import opened MfoRecords
  import opened Settings
  import Sorting
  import JsMap
  import Defaults

  datatype Organization = Organization(name: string, url: string, logo: string, rating: Rating)

  datatype OrganizationItem = OrganizationItem(position: nat, item: Organization)

  datatype OrganizationList = OrganizationList(name: string, description: string, numberOfItems: nat, elements: seq<OrganizationItem>)

  /** The sort key: the Wilson lower bound of the MFO's rating. */
  function Score(sqrt: real -> real): MfoDetails -> seq<real>
  {
    (m: MfoDetails) => [Defaults.WilsonRating(m.ratingAverage, m.ratingCount, sqrt)]
  }

  function SlugOf(m: MfoDetails): string {
    m.slug
  }

  /** `[...data].sort((a, b) => bWilson - aWilson)`. */
  function SortedMfos(data: seq<MfoDetails>, sqrt: real -> real): seq<MfoDetails>
  {
    Sorting.SortDesc(data, Score(sqrt))
  }

  /** `Array.from(new Map(sorted.map(m => [m.slug, m])).values())`. */
  function UniqueMfos(data: seq<MfoDetails>, sqrt: real -> real): seq<MfoDetails>
  {
    JsMap.Values(JsMap.FromList(SortedMfos(data, sqrt), SlugOf))
  }

  /** The ListItems of the named MFOs, numbered from 1. */
  function Elements(mfos: seq<MfoDetails>, lang: Lang): (r: seq<OrganizationItem>)
    ensures |r| == |Named(mfos)|
    ensures forall i :: 0 <= i < |r| ==>
      && r[i].position == i + 1
      && r[i].item.name == Trim(Named(mfos)[i].name)
      && r[i].item.name != ""
      && r[i].item.url == ItemUrl(Named(mfos)[i], lang)
      && r[i].item.rating == MakeRating(Named(mfos)[i])
  {
    var named := Named(mfos);
    seq(|named|, i requires 0 <= i < |named| =>
      OrganizationItem(i + 1, Organization(Trim(named[i].name), ItemUrl(named[i], lang), named[i].logoUrl, MakeRating(named[i]))))
  }

  function PageWebPage(lang: Lang, dates: Defaults.PageDates, settings: SettingsGroup): Defaults.WebPageSchema
  {
    Defaults.DefaultWebPageSchema(
      lang,
      StrOr(Setting(settings, "mfo_page_meta_title"), "Рейтинг МФО"),
      StrOr(Setting(settings, "mfo_page_meta_description"), "Рейтинг микрофинансовых организаций Украины"),
      "/mfo",
      dates)
  }

  /** The page's schemas: the WebPage, then the ItemList when it has items. */
  function MfoPageSchemas(lang: Lang, data: seq<MfoDetails>, dates: Defaults.PageDates, settings: SettingsGroup, sqrt: real -> real)
    : (r: (Defaults.WebPageSchema, Option<OrganizationList>))
    ensures r.0 == PageWebPage(lang, dates, settings)
    ensures r.1.Some? <==> |Named(UniqueMfos(data, sqrt))| > 0
    ensures r.1.Some? ==> r.1.value.numberOfItems == |r.1.value.elements| == |Named(UniqueMfos(data, sqrt))|
    ensures r.1.Some? ==> r.1.value.elements == Elements(UniqueMfos(data, sqrt), lang)
  {
    var elements := Elements(UniqueMfos(data, sqrt), lang);
    var itemList :=
      if |elements| > 0 then
        Some(OrganizationList(
          StrOr(Setting(settings, "mfo_page_title"), "Рейтинг МФО Украины"),
          StrOr(Setting(settings, "mfo_page_meta_description"), "Лучшие микрофинансовые организации по отзывам клиентов"),
          |elements|,
          elements))
      else None;
    (PageWebPage(lang, dates, settings), itemList)
  }

  /** The sorted copy holds the same records, by non-increasing Wilson score,
      with equal scores in input order. */
  lemma SortedSpec(data: seq<MfoDetails>, sqrt: real -> real)
    ensures multiset(SortedMfos(data, sqrt)) == multiset(data)
    ensures forall i, j :: 0 <= i < j < |data| ==>
      Defaults.WilsonRating(SortedMfos(data, sqrt)[i].ratingAverage, SortedMfos(data, sqrt)[i].ratingCount, sqrt)
        >= Defaults.WilsonRating(SortedMfos(data, sqrt)[j].ratingAverage, SortedMfos(data, sqrt)[j].ratingCount, sqrt)
    ensures forall k :: Sorting.WithKey(SortedMfos(data, sqrt), Score(sqrt), k) == Sorting.WithKey(data, Score(sqrt), k)
  {
    var s := SortedMfos(data, sqrt);
    Sorting.SortDescSorted(data, Score(sqrt));
    forall i, j | 0 <= i < j < |data|
      ensures Defaults.WilsonRating(s[i].ratingAverage, s[i].ratingCount, sqrt)
           >= Defaults.WilsonRating(s[j].ratingAverage, s[j].ratingCount, sqrt)
    {
      assert Sorting.LexGe(Score(sqrt)(s[i]), Score(sqrt)(s[j]));
    }
    forall k ensures Sorting.WithKey(s, Score(sqrt), k) == Sorting.WithKey(data, Score(sqrt), k) {
      Sorting.SortDescStable(data, Score(sqrt), k);
    }
  }

  /** The Map keeps one record per slug: slugs appear in the order of their
      first occurrence in the sorted list, each with the LAST record of the
      sorted list that has it. */
  lemma UniqueSpec(data: seq<MfoDetails>, sqrt: real -> real)
    ensures var u := UniqueMfos(data, sqrt); var s := SortedMfos(data, sqrt); var ks := JsMap.FirstKeys(s, SlugOf);
      && |u| == |ks|
      && forall i :: 0 <= i < |u| ==> u[i].slug == ks[i] && u[i] == JsMap.LastWith(s, SlugOf, ks[i])
  {
    var s := SortedMfos(data, sqrt);
    JsMap.FromListSpec(s, SlugOf);
  }

  /** Every slug of the input appears exactly once in the deduplicated list. */
  lemma UniqueSlugs(data: seq<MfoDetails>, sqrt: real -> real)
    ensures var u := UniqueMfos(data, sqrt);
      && (forall i, j :: 0 <= i < j < |u| ==> u[i].slug != u[j].slug)
      && (forall m :: m in data ==> exists i :: 0 <= i < |u| && u[i].slug == m.slug)
  {
    var s := SortedMfos(data, sqrt);
    var ks := JsMap.FirstKeys(s, SlugOf);
    var u := UniqueMfos(data, sqrt);
    UniqueSpec(data, sqrt);
    forall x | x in data ensures exists i :: 0 <= i < |u| && u[i].slug == x.slug {
      assert x in multiset(s);
      var j :| 0 <= j < |s| && s[j] == x;
      assert SlugOf(s[j]) in ks;
      var i :| 0 <= i < |ks| && ks[i] == x.slug;
      assert u[i].slug == x.slug;
    }
  }

  /** When no two records share a slug, nothing is dropped: the ItemList
      follows the Wilson order. */
  lemma UniqueWhenSlugsDistinct(data: seq<MfoDetails>, sqrt: real -> real)
    requires forall i, j :: 0 <= i < j < |SortedMfos(data, sqrt)| ==>
      SortedMfos(data, sqrt)[i].slug != SortedMfos(data, sqrt)[j].slug
    ensures UniqueMfos(data, sqrt) == SortedMfos(data, sqrt)
  {
    JsMap.FromListDistinct(SortedMfos(data, sqrt), SlugOf);
  }
}
