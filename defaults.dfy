/** Shared schema.org builders of app/structured-data/defaults.ts: the
    Wilson-score rating used to rank organisations and the default WebPage
    object every page embeds. */
module Defaults {
  import opened Js
  import opened Site
  import RoutesMap
  import MetadataUtils

  /** The 95%-confidence z-score. */
  const Z: real := 1.96

  /** `calculateWilsonRating`: the lower bound of the Wilson score interval of
      the rating read as a proportion of 5, rescaled to 0..5 and clamped.
      `Math.sqrt` is the parameter `sqrt`. */
  function WilsonRating(rating: real, count: nat, sqrt: real -> real): (r: real)
    ensures count == 0 ==> r == rating
    ensures count > 0 ==> 0.0 <= r <= 5.0
  {
    if count == 0 then rating
    else
      var p := rating / 5.0;
      var n := count as real;
      var numerator := p + (Z * Z) / (2.0 * n) - Z * sqrt(Radicand(rating, count));
      var denominator := 1.0 + (Z * Z) / n;
      Clamp(numerator / denominator * 5.0)
  }

  /** The value under the square root: `(p * (1 - p) + z * z / (4 * n)) / n`. */
  function Radicand(rating: real, count: nat): real
    requires count > 0
  {
    var p := rating / 5.0;
    var n := count as real;
    (p * (1.0 - p) + (Z * Z) / (4.0 * n)) / n
  }

  /** A rating above 5 with few votes makes the radicand negative, where
      `Math.sqrt` gives NaN. */
  lemma NegativeRadicand()
    ensures Radicand(10.0, 1) < 0.0
  {
    var p := 10.0 / 5.0;
    assert p == 2.0;
    assert p * (1.0 - p) == -2.0;
    assert (Z * Z) / 4.0 < 1.0;
  }

  /** For a rating in 0..5 and a true square root, the score is a
      pessimistic one: never above the plain average, never below 0. */
  lemma WilsonAtMostAverage(rating: real, count: nat, sqrt: real -> real)
    requires 0.0 <= rating <= 5.0 && count > 0
    requires sqrt(Radicand(rating, count)) >= 0.0
    requires sqrt(Radicand(rating, count)) * sqrt(Radicand(rating, count)) == Radicand(rating, count)
    ensures 0.0 <= WilsonRating(rating, count, sqrt) <= rating
  {
    var p := rating / 5.0;
    var n := count as real;
    var s := sqrt(Radicand(rating, count));
    NumeratorBound(p, n, s);
    BelowShare(p + (Z * Z) / (2.0 * n) - Z * s, 1.0 + (Z * Z) / n, p);
  }

  /** The numerator is at most `p` denominators: the square root is at least
      `z (1 - 2p) / 2n`, which is what the numerator adds above `p`. */
  lemma NumeratorBound(p: real, n: real, s: real)
    requires 0.0 <= p <= 1.0 && n >= 1.0 && s >= 0.0
    requires s * s == (p * (1.0 - p) + (Z * Z) / (4.0 * n)) / n
    ensures p + (Z * Z) / (2.0 * n) - Z * s <= p * (1.0 + (Z * Z) / n)
  {
    var w := 1.0 / n;
    var t := Z * (1.0 - 2.0 * p) * w / 2.0;
    InverseForms(n, w);
    var x := p * (1.0 - p) + (Z * Z) / (4.0 * n);
    assert x / n == x * w;
    RadicandAbove(p, w, x);
    RootOrder(t, s);
    assert (Z * Z) / (2.0 * n) - p * ((Z * Z) / n) == Z * t;
  }

  /** The divisions by `n` as multiplications by `w = 1 / n`. */
  lemma InverseForms(n: real, w: real)
    requires n >= 1.0 && w == 1.0 / n
    ensures (Z * Z) / (2.0 * n) == Z * Z * w / 2.0
    ensures (Z * Z) / n == Z * Z * w
    ensures (Z * Z) / (4.0 * n) == Z * Z * w / 4.0
    ensures forall x: real {:trigger x / n} :: x / n == x * w
    ensures w > 0.0
  {
  }

  /** The square of `t = z (1 - 2p) w / 2` is at most the radicand `x w`,
      where `x = p (1 - p) + z z w / 4`. */
  lemma RadicandAbove(p: real, w: real, x: real)
    requires 0.0 <= p <= 1.0 && w > 0.0
    requires x == p * (1.0 - p) + Z * Z * w / 4.0
    ensures var t := Z * (1.0 - 2.0 * p) * w / 2.0;
      t * t <= x * w
  {
    var q := p * (1.0 - p);
    var t := Z * (1.0 - 2.0 * p) * w / 2.0;
    MulNonNegative(p, 1.0 - p);
    assert (1.0 - 2.0 * p) * (1.0 - 2.0 * p) == 1.0 - 4.0 * q;
    assert t * t == Z * Z * w * w * (1.0 - 4.0 * q) / 4.0;
    assert x * w == q * w + Z * Z * w * w / 4.0;
    MulNonNegative(q, w);
    MulNonNegative(Z * Z * w * w, q);
  }

  /** Of two reals whose squares are ordered, the second non-negative, the
      first is at most the second. */
  lemma RootOrder(t: real, s: real)
    requires s >= 0.0 && t * t <= s * s
    ensures t <= s
  {
    var u := s - t;
    var v := s + t;
    assert u * v == s * s - t * t;
    if v > 0.0 {
      SignOfProduct(u, v);
    }
  }

  lemma SignOfProduct(u: real, v: real)
    requires v > 0.0 && u * v >= 0.0
    ensures u >= 0.0
  {
  }

  lemma MulNonNegative(a: real, b: real)
    requires a >= 0.0 && b >= 0.0
    ensures a * b >= 0.0
  {
  }

  /** `numerator / denominator * 5` does not exceed `5 p` when the numerator
      is at most `p` denominators, and the clamp keeps it in 0..5p. */
  lemma BelowShare(numerator: real, denominator: real, p: real)
    requires denominator > 0.0 && 0.0 <= p <= 1.0 && numerator <= p * denominator
    ensures 0.0 <= Clamp(numerator / denominator * 5.0) <= 5.0 * p
  {
    assert numerator / denominator <= p;
  }

  /** `Math.max(0, Math.min(5, x))`. */
  function Clamp(x: real): (r: real)
    ensures 0.0 <= r <= 5.0
    ensures 0.0 <= x <= 5.0 ==> r == x
  {
    if x < 0.0 then 0.0 else if x > 5.0 then 5.0 else x
  }

  /** Publication dates of a page as supplied by the page-dates endpoint. */
  datatype PageDates = PageDates(datePublished: string, dateModified: string)

  /** The WebPage object. `context` is the "@context" key, which one caller
      removes; the fixed isPartOf and publisher parts are not represented. */
  datatype WebPageSchema = WebPage(
    context: Option<string>,
    name: string,
    description: string,
    url: string,
    datePublished: string,
    dateModified: string,
    inLanguage: string)

  /** `getDefaultWebPageSchema`. */
  function DefaultWebPageSchema(lang: Lang, title: string, description: string, path: string, dates: PageDates): (w: WebPageSchema)
    ensures w.context == Some("https://schema.org")
    ensures w.url == BaseUrl + RoutesMap.LocalePrefix(LangCode(lang)) + path
    ensures w.inLanguage == "uk-UA" <==> lang == Ua
    ensures w.inLanguage == "ru-UA" <==> lang == Ru
    ensures w.name == title && w.description == description
    ensures w.datePublished == dates.datePublished && w.dateModified == dates.dateModified
  {
    WebPage(
      Some("https://schema.org"),
      title,
      description,
      BaseUrl + (if lang == Ru then "/ru" else "") + path,
      dates.datePublished,
      dates.dateModified,
      if lang == Ua then "uk-UA" else "ru-UA")
  }

  /** The WebPage url of a page is the canonical URL its metadata announces:
      both add "/ru" for Russian and nothing for the default locale. */
  lemma WebPageUrlIsCanonical(lang: Lang, title: string, description: string, segments: seq<string>, dates: PageDates)
    ensures DefaultWebPageSchema(lang, title, description, MetadataUtils.AlternatePath(segments), dates).url
         == MetadataUtils.GenerateAlternates(segments, LangCode(lang)).canonical
  {
  }
}
