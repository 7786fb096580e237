/** The promocodes page's structured data
    (app/structured-data/MicrodataPromocodes.tsx): an ItemList of the MFO's
    usable promo codes, each an Offer made by the MFO. */
module MicrodataPromocodes {
  import opened Js
  import opened Site

  /** A promo code as the API returns it; an absent title or link reads as
      the empty string. */
  datatype Promocode = Promocode(
    id: int,
    title: string,
    description: string,
    validUntil: string,
    redirectUrl: string)

  datatype Offer = Offer(
    name: string,
    description: string,
    url: string,
    validThrough: string,
    offeredByName: string,
    offeredByUrl: string)

  datatype ListItem = ListItem(position: nat, item: Offer)

  datatype ItemList = ItemList(name: string, elements: seq<ListItem>)

  /** `promo.title?.trim() && promo.redirect_url?.trim()`. */
  predicate Usable(p: Promocode)
  {
    Trim(p.title) != "" && Trim(p.redirectUrl) != ""
  }

  /** The promo codes kept, in their input order. */
  function Kept(promocodes: seq<Promocode>): seq<Promocode>
  {
    Filter(promocodes, Usable)
  }

  function CompanyUrl(lang: Lang, companySlug: string): string
  {
    BaseUrl + "/" + LangCode(lang) + "/mfo/" + companySlug
  }

  /** The offer made from one kept promo code. */
  function OfferOf(p: Promocode, companyName: string, companyUrl: string): (o: Offer)
    ensures o.name == p.title && o.description == p.description
    ensures o.url == p.redirectUrl && o.validThrough == p.validUntil
    ensures o.offeredByName == companyName && o.offeredByUrl == companyUrl
  {
    Offer(p.title, p.description, p.redirectUrl, p.validUntil, companyName, companyUrl)
  }

  /** `MicrodataPromocodes`: the usable promo codes numbered from 1. */
  function PromocodesSchema(promocodes: seq<Promocode>, companyName: string, companySlug: string, lang: Lang)
    : (r: ItemList)
    ensures r.name == "Промокоды " + companyName
    ensures |r.elements| == |Kept(promocodes)|
    ensures forall i :: 0 <= i < |r.elements| ==>
      && r.elements[i].position == i + 1
      && r.elements[i].item == OfferOf(Kept(promocodes)[i], companyName, CompanyUrl(lang, companySlug))
  {
    var kept := Kept(promocodes);
    ItemList(
      "Промокоды " + companyName,
      seq(|kept|, i requires 0 <= i < |kept| =>
        ListItem(i + 1, OfferOf(kept[i], companyName, CompanyUrl(lang, companySlug)))))
  }

  /** A promo code is listed exactly when its title and link are not blank:
      every listed offer has a non-blank name and link taken from a promo code
      of the input, and every usable promo code is listed. */
  lemma ListedIffUsable(promocodes: seq<Promocode>, companyName: string, companySlug: string, lang: Lang)
    ensures var r := PromocodesSchema(promocodes, companyName, companySlug, lang);
      && (forall i :: 0 <= i < |r.elements| ==>
            !AllWhitespace(r.elements[i].item.name) && !AllWhitespace(r.elements[i].item.url))
      && (forall p :: p in promocodes && Usable(p) ==>
            exists i :: 0 <= i < |r.elements| && r.elements[i].item == OfferOf(p, companyName, CompanyUrl(lang, companySlug)))
  {
    var kept := Kept(promocodes);
    var r := PromocodesSchema(promocodes, companyName, companySlug, lang);
    forall i | 0 <= i < |r.elements|
      ensures !AllWhitespace(r.elements[i].item.name) && !AllWhitespace(r.elements[i].item.url)
    {
      TrimEmptyIff(kept[i].title);
      TrimEmptyIff(kept[i].redirectUrl);
    }
    forall p | p in promocodes && Usable(p)
      ensures exists i :: 0 <= i < |r.elements| && r.elements[i].item == OfferOf(p, companyName, CompanyUrl(lang, companySlug))
    {
      var i :| 0 <= i < |kept| && kept[i] == p;
      assert r.elements[i].item == OfferOf(p, companyName, CompanyUrl(lang, companySlug));
    }
  }

  /** The list keeps the input's order: the offers of a concatenation are
      those of the first part followed by those of the second. */
  lemma KeptInOrder(a: seq<Promocode>, b: seq<Promocode>)
    ensures Kept(a + b) == Kept(a) + Kept(b)
  {
    FilterAppend(a, b, Usable);
  }
}
