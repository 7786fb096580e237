/** The ItemList of MFO cards (app/structured-data/MfoListStructuredData.tsx):
    one entry per company, carrying the company's own position. */
module MfoList {
  import opened Js

  /** A company card; `ratingValue`/`reviewCount` are the numbers `+` gives. */
  datatype Company = Company(name: string, url: string, ratingValue: JsNum, reviewCount: JsNum, position: int)

  /** A ListItem; the two rating numbers are the values `String(...)` writes. */
  datatype ListItem = ListItem(position: int, name: string, url: string, ratingValue: real, ratingCount: real)

  function MfoListItems(companies: seq<Company>): (r: seq<ListItem>)
    ensures |r| == |companies|
    ensures forall i :: 0 <= i < |r| ==>
      && r[i].position == companies[i].position
      && r[i].name == companies[i].name && r[i].url == companies[i].url
      && r[i].ratingValue == (if Truthy(companies[i].ratingValue) then companies[i].ratingValue.value else 5.0)
      && r[i].ratingCount == (if Truthy(companies[i].reviewCount) then companies[i].reviewCount.value else 1.0)
  {
    seq(|companies|, i requires 0 <= i < |companies| =>
      ListItem(companies[i].position, companies[i].name, companies[i].url,
        NumOr(companies[i].ratingValue, 5.0), NumOr(companies[i].reviewCount, 1.0)))
  }

  /** The rating fallbacks never leave a zero: every item has a non-zero
      rating value and count. */
  lemma RatingsNeverZero(companies: seq<Company>)
    ensures forall i :: 0 <= i < |companies| ==>
      MfoListItems(companies)[i].ratingValue != 0.0 && MfoListItems(companies)[i].ratingCount != 0.0
  {
  }
}
