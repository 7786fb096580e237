/** Breadcrumb derivation of app/components/Bread.tsx: the path is cut into
    segments, the leading locale segment is dropped, and every remaining
    segment becomes one (label, href) crumb. */
module Bread {
  import opened Js
  import opened Site
  import MetadataUtils

  datatype LabelPair = LabelPair(ru: string, ua: string)

  /** The eight static route names and their labels. */
  const Translations: map<string, LabelPair> := map[
    "loan" := LabelPair("Займы", "Позики"),
    "reviews" := LabelPair("Отзывы", "Відгуки"),
    "contacts" := LabelPair("Контакты", "Контакти"),
    "promotion" := LabelPair("Акции", "Акції"),
    "qap" := LabelPair("Вопросы", "Питання"),
    "catalog" := LabelPair("Каталог МФО", "Каталог МФО"),
    "mfo" := LabelPair("Рейтинг МФО", "Рейтинг МФО"),
    "about" := LabelPair("О нас", "Про нас")
  ]

  /** `translations[segment]?.[lang]`, with "" standing for `undefined`. */
  function Translation(segment: string, lang: Lang): string
  {
    if segment in Translations then
      match lang
      case Ru => Translations[segment].ru
      case Ua => Translations[segment].ua
    else ""
  }

  /** Every table entry has a non-empty label in both languages, so a segment
      has a (truthy) translation exactly when it is one of the eight names. */
  lemma TranslationPresentIff(segment: string, lang: Lang)
    ensures Translation(segment, lang) != "" <==> segment in Translations
  {
  }

  /** The segments of the current path: none for an empty (or missing) path;
      otherwise the non-empty "/"-pieces with the first one dropped when it
      is a locale. */
  function BreadSegments(pathname: string): (segments: seq<string>)
    ensures pathname == "" ==> segments == []
    ensures forall i :: 0 <= i < |segments| ==> segments[i] != "" && '/' !in segments[i]
  {
    if pathname == "" then []
    else
      var parts := PathSegments(pathname);
      if |parts| > 0 && (parts[0] == "ru" || parts[0] == "ua") then parts[1..] else parts
  }

  function LangPrefix(lang: Lang): string
  {
    if lang == Ru then "/ru" else ""
  }

  /** A segment right after "mfo" that is not a static route name is an
      organisation slug. */
  predicate IsCompanySlug(segments: seq<string>, i: nat, lang: Lang)
    requires i < |segments|
  {
    i > 0 && segments[i - 1] == "mfo" && Translation(segments[i], lang) == ""
  }

  function Href(segments: seq<string>, i: nat, lang: Lang): string
    requires i < |segments|
  {
    var prefix := LangPrefix(lang);
    if segments[i] == "mfo" then prefix + "/mfo"
    else if IsCompanySlug(segments, i, lang) then prefix + "/mfo/" + segments[i]
    else prefix + "/" + Join(segments[..i + 1], "/")
  }

  /** `word.charAt(0).toUpperCase() + word.slice(1)`. */
  function Capitalize(word: string): (r: string)
    ensures |r| == |word|
    ensures '-' in r <==> '-' in word
  {
    if word == "" then "" else [UpperChar(word[0])] + word[1..]
  }

  function MapCapitalize(words: seq<string>): (r: seq<string>)
    ensures |r| == |words|
    ensures forall i :: 0 <= i < |words| ==> r[i] == Capitalize(words[i])
  {
    if words == [] then [] else [Capitalize(words[0])] + MapCapitalize(words[1..])
  }

  /** The fallback label of an unknown segment: split on "-", capitalise each
      word, join with spaces. */
  function Humanize(s: string): string
  {
    Join(MapCapitalize(Split(s, '-')), " ")
  }

  /** The label of crumb `i`; `decode` is `decodeURIComponent` and an empty
      `companyName` stands for a missing one. */
  function Label(segments: seq<string>, i: nat, lang: Lang, companyName: string, decode: string -> string): string
    requires i < |segments|
  {
    var segment := segments[i];
    if segment == "mfo" then StrOr(Translation("mfo", lang), "МФО")
    else if IsCompanySlug(segments, i, lang) && companyName != "" then companyName
    else if Translation(segment, lang) != "" then Translation(segment, lang)
    else Humanize(decode(segment))
  }

  datatype Crumb = Crumb(text: string, href: string)

  /** One crumb per segment, in order. */
  function Crumbs(segments: seq<string>, lang: Lang, companyName: string, decode: string -> string): (r: seq<Crumb>)
    ensures |r| == |segments|
    ensures forall i :: 0 <= i < |segments| ==>
      r[i] == Crumb(Label(segments, i, lang, companyName, decode), Href(segments, i, lang))
  {
    seq(|segments|, i requires 0 <= i < |segments| =>
      Crumb(Label(segments, i, lang, companyName, decode), Href(segments, i, lang)))
  }

  function Breadcrumbs(pathname: string, lang: Lang, companyName: string, decode: string -> string): (r: seq<Crumb>)
    ensures |r| == |BreadSegments(pathname)|
    ensures pathname == "" ==> r == []
  {
    Crumbs(BreadSegments(pathname), lang, companyName, decode)
  }

  /** The path of a page, under any locale prefix, cuts back into exactly
      the page's segments: the prefix is dropped and nothing else. */
  lemma SegmentsOfLocalizedPath(prefix: string, page: seq<string>)
    requires prefix == "" || prefix == "/ru" || prefix == "/ua"
    requires |page| >= 1 && page[0] != "ru" && page[0] != "ua"
    requires forall i :: 0 <= i < |page| ==> page[i] != "" && '/' !in page[i]
    ensures BreadSegments(prefix + "/" + Join(page, "/")) == page
  {
    var path := prefix + "/" + Join(page, "/");
    var parts: seq<string>;
    if prefix == "" {
      parts := page;
      assert path == "/" + Join(parts, "/");
    } else {
      parts := LocalizedParts(prefix, page);
    }
    PathOfJoin(parts);
    SegmentsOfPath(path, parts);
  }

  /** What `BreadSegments` does with a path whose pieces are known. */
  lemma SegmentsOfPath(path: string, parts: seq<string>)
    requires |path| >= 1 && PathSegments(path) == parts
    ensures |parts| > 0 && (parts[0] == "ru" || parts[0] == "ua") ==> BreadSegments(path) == parts[1..]
    ensures !(|parts| > 0 && (parts[0] == "ru" || parts[0] == "ua")) ==> BreadSegments(path) == parts
  {
  }

  /** Under a locale prefix the path is that of the locale followed by the
      page's segments. */
  lemma LocalizedParts(prefix: string, page: seq<string>) returns (parts: seq<string>)
    requires prefix == "/ru" || prefix == "/ua"
    requires |page| >= 1
    requires forall i :: 0 <= i < |page| ==> page[i] != "" && '/' !in page[i]
    ensures parts == [prefix[1..]] + page && parts[1..] == page
    ensures prefix[1..] == "ru" || prefix[1..] == "ua"
    ensures prefix + "/" + Join(page, "/") == "/" + Join(parts, "/")
    ensures forall i :: 0 <= i < |parts| ==> parts[i] != "" && '/' !in parts[i]
  {
    var locale := prefix[1..];
    assert prefix == "/" + locale;
    parts := [locale] + page;
    assert parts[1..] == page;
    assert Join(parts, "/") == locale + "/" + Join(page, "/");
  }

  /** A "mfo" segment, wherever it stands, links to the rating page and is
      labelled "Рейтинг МФО". */
  lemma MfoCrumb(segments: seq<string>, i: nat, lang: Lang, companyName: string, decode: string -> string)
    requires i < |segments| && segments[i] == "mfo"
    ensures Crumbs(segments, lang, companyName, decode)[i] == Crumb("Рейтинг МФО", LangPrefix(lang) + "/mfo")
  {
  }

  /** An organisation slug links to its page under "/mfo" and is labelled with
      the company name when one is supplied. */
  lemma CompanyCrumb(segments: seq<string>, i: nat, lang: Lang, companyName: string, decode: string -> string)
    requires 0 < i < |segments| && segments[i - 1] == "mfo" && segments[i] !in Translations
    ensures Crumbs(segments, lang, companyName, decode)[i].href == LangPrefix(lang) + "/mfo/" + segments[i]
    ensures companyName != "" ==> Crumbs(segments, lang, companyName, decode)[i].text == companyName
    ensures companyName == "" ==> Crumbs(segments, lang, companyName, decode)[i].text == Humanize(decode(segments[i]))
  {
    TranslationPresentIff(segments[i], lang);
  }

  /** Any other segment links to the path of all segments up to it, and is
      labelled from the table or, failing that, by humanising it. */
  lemma OtherCrumb(segments: seq<string>, i: nat, lang: Lang, companyName: string, decode: string -> string)
    requires i < |segments| && segments[i] != "mfo"
    requires !(i > 0 && segments[i - 1] == "mfo" && segments[i] !in Translations)
    ensures Crumbs(segments, lang, companyName, decode)[i].href == LangPrefix(lang) + "/" + Join(segments[..i + 1], "/")
    ensures segments[i] in Translations ==>
      Crumbs(segments, lang, companyName, decode)[i].text == Translation(segments[i], lang)
    ensures segments[i] !in Translations ==>
      Crumbs(segments, lang, companyName, decode)[i].text == Humanize(decode(segments[i]))
  {
    TranslationPresentIff(segments[i], lang);
  }

  /** Russian hrefs are the default-locale hrefs under "/ru". */
  lemma RussianHrefs(segments: seq<string>, companyName: string, decode: string -> string)
    ensures forall i :: 0 <= i < |segments| ==>
      Crumbs(segments, Ru, companyName, decode)[i].href == "/ru" + Crumbs(segments, Ua, companyName, decode)[i].href
  {
    forall i | 0 <= i < |segments|
      ensures Href(segments, i, Ru) == "/ru" + Href(segments, i, Ua)
    {
      TranslationPresentIff(segments[i], Ru);
      TranslationPresentIff(segments[i], Ua);
    }
  }

  lemma {:induction false} JoinAvoids(parts: seq<string>, sep: string, c: char)
    requires c !in sep
    requires forall i :: 0 <= i < |parts| ==> c !in parts[i]
    ensures c !in Join(parts, sep)
  {
    if |parts| > 1 {
      JoinAvoids(parts[1..], sep, c);
    }
  }

  /** A humanised label never contains "-". */
  lemma HumanizeHasNoDash(s: string)
    ensures '-' !in Humanize(s)
  {
    var words := Split(s, '-');
    JoinAvoids(MapCapitalize(words), " ", '-');
  }

  /** The href of a crumb that is neither "mfo" nor an organisation slug. */
  lemma PathHref(segments: seq<string>, i: nat, lang: Lang)
    requires i < |segments|
    requires !IsCompanySlug(segments, i, lang) && segments[i] != "mfo"
    ensures Href(segments, i, lang) == LangPrefix(lang) + ("/" + Join(segments[..i + 1], "/"))
  {
  }

  /** The canonical URL of a non-empty path, with the locale prefix. */
  lemma CanonicalOfPath(segments: seq<string>, lang: Lang)
    requires segments != []
    ensures MetadataUtils.GenerateAlternates(segments, LangCode(lang)).canonical
         == BaseUrl + (LangPrefix(lang) + ("/" + Join(segments, "/")))
  {
    var path := "/" + Join(segments, "/");
    var a := MetadataUtils.GenerateAlternates(segments, LangCode(lang));
    if lang == Ua {
      assert a.canonical == BaseUrl + path;
      assert LangPrefix(lang) + path == path;
    } else {
      assert a.canonical == BaseUrl + "/ru" + path;
    }
  }

  /** Outside organisation slugs, a crumb's href is the page path whose
      canonical URL the metadata announces for the same segments. */
  lemma HrefMatchesCanonical(segments: seq<string>, i: nat, lang: Lang)
    requires i < |segments|
    requires !IsCompanySlug(segments, i, lang) && segments[i] != "mfo"
    ensures BaseUrl + Href(segments, i, lang)
         == MetadataUtils.GenerateAlternates(segments[..i + 1], LangCode(lang)).canonical
  {
    PathHref(segments, i, lang);
    CanonicalOfPath(segments[..i + 1], lang);
  }
}
