/** hreflang alternates and the canonical URL of a page (app/lib/metadataUtils.ts). */
module MetadataUtils {
  import opened Js
  import opened Site

  /** The `alternates` metadata object: the canonical URL and the three
      language links. */
  datatype Alternates = Alternates(canonical: string, ukUA: string, ruUA: string, xDefault: string)

  /** The page path built from its segments: empty for the home page,
      "/" + segments joined with "/" otherwise. */
  function AlternatePath(segments: seq<string>): (path: string)
    ensures path == "" <==> segments == []
    ensures segments != [] ==> path == "/" + Join(segments, "/")
  {
    if |segments| > 0 then "/" + Join(segments, "/") else ""
  }

  function GenerateAlternates(segments: seq<string>, lang: string): (a: Alternates)
    ensures a.ukUA == BaseUrl + AlternatePath(segments)
    ensures a.ruUA == BaseUrl + "/ru" + AlternatePath(segments)
    ensures a.canonical == a.ukUA <==> lang == "ua"
    ensures a.canonical == a.ruUA <==> lang != "ua"
    ensures a.xDefault == a.ukUA
  {
    var path := AlternatePath(segments);
    var ukUrl := BaseUrl + path;
    var ruUrl := BaseUrl + "/ru" + path;
    assert |ukUrl| < |ruUrl|;
    Alternates(if lang == "ua" then ukUrl else ruUrl, ukUrl, ruUrl, ukUrl)
  }

  /** The home page in the default locale is canonical at the bare origin;
      "loan" in Russian is canonical under "/ru". */
  lemma CanonicalExamples()
    ensures GenerateAlternates([], "ua").canonical == "https://mfoxa.com.ua"
    ensures GenerateAlternates(["loan"], "ru").canonical == "https://mfoxa.com.ua/ru/loan"
  {
  }
}
