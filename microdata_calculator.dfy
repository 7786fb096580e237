/** The calculator's structured data
    (app/structured-data/MicrodataCalculator.tsx): a free SoftwareApplication
    named after the MFO, whose URL carries a slug made from the MFO's name. */
module MicrodataCalculator {
  import opened Js
  import opened Site

  datatype AggregateRating = AggregateRating(ratingValue: int, ratingCount: int, bestRating: int, worstRating: int)

  datatype Application = Application(name: string, url: string, price: string, rating: AggregateRating)

  /** `name.toLowerCase().replace(/\s/g, "-")`. */
  function Slug(name: string): (r: string)
    ensures |r| == |name|
    ensures forall i :: 0 <= i < |r| ==> !IsWhitespace(r[i])
    ensures forall i :: 0 <= i < |r| ==>
      r[i] == (if IsWhitespace(name[i]) then '-' else LowerChar(name[i]))
  {
    var lower := LowerCase(name);
    seq(|lower|, i requires 0 <= i < |lower| => if IsWhitespace(lower[i]) then '-' else lower[i])
  }

  function AppName(lang: Lang, companyName: string): (r: string)
    ensures lang == Ru ==> r == "Калькулятор процентов " + companyName
    ensures lang == Ua ==> r == "Калькулятор відсотків " + companyName
  {
    if lang == Ru then "Калькулятор процентов " + companyName else "Калькулятор відсотків " + companyName
  }

  /** `MicrodataCalculator`. */
  function CalculatorSchema(companyName: string, lang: Lang): (r: Application)
    ensures r.name == AppName(lang, companyName)
    ensures r.url == BaseUrl + "/" + LangCode(lang) + "/mfo/" + Slug(companyName)
    ensures r.price == "0"
    ensures r.rating == AggregateRating(5, 1, 5, 1)
  {
    Application(AppName(lang, companyName), BaseUrl + "/" + LangCode(lang) + "/mfo/" + Slug(companyName), "0",
      AggregateRating(5, 1, 5, 1))
  }

  lemma LowerCharIdempotent(c: char)
    ensures LowerChar(LowerChar(c)) == LowerChar(c)
  {
  }

  /** A slug is its own slug: lower-casing and hyphenating a second time
      changes nothing. */
  lemma SlugIdempotent(name: string)
    ensures Slug(Slug(name)) == Slug(name)
  {
    var s := Slug(name);
    forall i | 0 <= i < |s| ensures Slug(s)[i] == s[i] {
      LowerCharIdempotent(name[i]);
    }
  }

  /** Two names that differ only in letter case or in which whitespace
      separates their words give the same URL. */
  lemma SlugIgnoresCaseAndSpacing(a: string, b: string)
    requires |a| == |b|
    requires forall i :: 0 <= i < |a| ==>
      (IsWhitespace(a[i]) && IsWhitespace(b[i])) || LowerChar(a[i]) == LowerChar(b[i])
    ensures Slug(a) == Slug(b)
  {
    forall i | 0 <= i < |a| ensures Slug(a)[i] == Slug(b)[i] {
      if !(IsWhitespace(a[i]) && IsWhitespace(b[i])) {
        assert IsWhitespace(LowerChar(a[i])) <==> IsWhitespace(LowerChar(b[i]));
      }
    }
  }
}
