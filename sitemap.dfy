/** The sitemap (app/sitemap.xml/route.ts): the `<url>` entries of the
    Sitemaps protocol 0.9, two per static page and two per listed MFO, the
    Ukrainian URL first and the Russian one second. */
module Sitemap {
  import opened Js
  import opened Site
  import MetadataUtils

  datatype ChangeFreq = Daily | Weekly | Monthly

  datatype StaticPage = StaticPage(path: string, priority: real, changefreq: ChangeFreq)

  /** The static pages, in sitemap order. */
  const StaticPages: seq<StaticPage> := [
    StaticPage("", 1.0, Daily),
    StaticPage("contacts", 0.9, Weekly),
    StaticPage("reviews", 0.7, Monthly),
    StaticPage("loan", 0.8, Weekly),
    StaticPage("about", 0.6, Monthly),
    StaticPage("mfo", 0.85, Weekly)
  ]

  /** One `<url>` element. */
  datatype UrlEntry = UrlEntry(loc: string, lastmod: string, priority: real, changefreq: ChangeFreq)

  /** An MFO of the list as the sitemap reads it. `updatedDay` is
      `new Date(updated_at).toISOString().split('T')[0]`, or `None` when
      `updated_at` is not a valid date and `toISOString` throws. */
  datatype SitemapMfo = SitemapMfo(slug: string, isActive: Option<bool>, updatedAt: string, updatedDay: Option<string>)

  /** The result of `getMFOs`: a failed request, a value that is not an
      array, or the list. */
  datatype FetchOutcome = FetchFailed | NotAnArray | Fetched(mfos: seq<SitemapMfo>)

  /** The Ukrainian URL of a static page as the route builds it: the origin
      and the path with nothing between them. */
  function UkStaticLocAsWritten(path: string): (loc: string)
    ensures |loc| == |BaseUrl| + |path|
  {
    BaseUrl + path
  }

  /** Every static page but the home page gets a URL outside the site's
      origin: "contacts" becomes "https://mfoxa.com.uacontacts" instead of
      the page's canonical URL. */
  lemma UkStaticLocMissesSlash()
    ensures UkStaticLocAsWritten("contacts") == "https://mfoxa.com.uacontacts"
    ensures UkStaticLocAsWritten("contacts") != MetadataUtils.GenerateAlternates(["contacts"], "ua").canonical
  {
    var good := MetadataUtils.GenerateAlternates(["contacts"], "ua").canonical;
    assert good[|BaseUrl|] == '/';
    assert UkStaticLocAsWritten("contacts")[|BaseUrl|] == 'c';
  }

  /** The Ukrainian URL of a static page with the separating "/": the page's
      canonical Ukrainian URL, the bare origin for the home page. */
  function UkStaticLoc(path: string): string
  {
    if path == "" then BaseUrl else BaseUrl + "/" + path
  }

  lemma UkStaticLocIsCanonical(path: string)
    ensures UkStaticLoc(path) == MetadataUtils.GenerateAlternates(if path == "" then [] else [path], "ua").canonical
  {
  }

  /** Below the origin, the corrected URL of a page holds that page's path as
      its one segment. */
  lemma UkStaticLocSegments(path: string)
    requires path != "" && '/' !in path
    ensures UkStaticLoc(path)[..|BaseUrl|] == BaseUrl
    ensures PathSegments(UkStaticLoc(path)[|BaseUrl|..]) == [path]
  {
    var rest := UkStaticLoc(path)[|BaseUrl|..];
    assert rest == "/" + path;
    assert IndexOf(rest, '/') == 0;
    assert rest[1..] == path;
    assert Split(rest, '/') == ["", path];
    assert ["", path][1..] == [path];
    assert NonEmpty(["", path]) == [path];
  }

  /** The Russian URL of a static page: "/ru/" then the path, so the home
      page's Russian URL ends in "/ru/". */
  function RuStaticLoc(path: string): string
  {
    BaseUrl + "/ru/" + path
  }

  lemma RuStaticLocIsCanonical(path: string)
    ensures path != "" ==> RuStaticLoc(path) == MetadataUtils.GenerateAlternates([path], "ru").canonical
    ensures path == "" ==> RuStaticLoc(path) == "https://mfoxa.com.ua/ru/"
  {
  }

  function UkEntry(page: StaticPage, today: string): UrlEntry
  {
    UrlEntry(UkStaticLoc(page.path), today, page.priority, page.changefreq)
  }

  function RuEntry(page: StaticPage, today: string): UrlEntry
  {
    UrlEntry(RuStaticLoc(page.path), today, page.priority, page.changefreq)
  }

  /** The two entries of one static page, the Ukrainian one first. */
  function PagePair(page: StaticPage, today: string): seq<UrlEntry>
  {
    [UkEntry(page, today), RuEntry(page, today)]
  }

  /** `f` applied to each element, the results concatenated in order. */
  function FlatMap<T, U>(s: seq<T>, f: T -> seq<U>): seq<U>
  {
    if s == [] then [] else FlatMap(s[..|s| - 1], f) + f(s[|s| - 1])
  }

  /** With two results per element, element `k`'s pair sits at `2k`. */
  lemma {:induction false} FlatMapPairs<T, U>(s: seq<T>, f: T -> seq<U>)
    requires forall k :: 0 <= k < |s| ==> |f(s[k])| == 2
    ensures |FlatMap(s, f)| == 2 * |s|
    ensures forall k :: 0 <= k < |s| ==> FlatMap(s, f)[2 * k .. 2 * k + 2] == f(s[k])
  {
    if s != [] {
      var init := s[..|s| - 1];
      FlatMapPairs(init, f);
      var e := FlatMap(s, f);
      forall k | 0 <= k < |s| ensures e[2 * k .. 2 * k + 2] == f(s[k]) {
        if k < |init| {
          assert e[2 * k .. 2 * k + 2] == FlatMap(init, f)[2 * k .. 2 * k + 2];
        }
      }
    }
  }

  lemma FlatMapSnoc<T, U>(s: seq<T>, i: nat, f: T -> seq<U>)
    requires i < |s|
    ensures FlatMap(s[..i + 1], f) == FlatMap(s[..i], f) + f(s[i])
  {
    assert s[..i + 1][..i] == s[..i];
  }

  function PagePairs(today: string): StaticPage -> seq<UrlEntry>
  {
    page => PagePair(page, today)
  }

  /** The entries of the static pages: each page's Ukrainian entry, then its
      Russian one. */
  function StaticEntries(pages: seq<StaticPage>, today: string): seq<UrlEntry>
  {
    FlatMap(pages, PagePairs(today))
  }

  /** Two entries per static page, in table order, the Ukrainian one first. */
  lemma StaticEntriesSpec(pages: seq<StaticPage>, today: string)
    ensures |StaticEntries(pages, today)| == 2 * |pages|
    ensures forall k :: 0 <= k < |pages| ==>
      StaticEntries(pages, today)[2 * k .. 2 * k + 2] == PagePair(pages[k], today)
  {
    FlatMapPairs(pages, PagePairs(today));
  }

  /** `mfo.slug && mfo.is_active !== false`: an MFO without the flag is listed. */
  predicate Included(m: SitemapMfo)
  {
    m.slug != "" && m.isActive != Some(false)
  }

  /** The MFO's lastmod: today when it has no update date, `None` when the
      date is invalid and the conversion throws. */
  function LastMod(m: SitemapMfo, today: string): (r: Option<string>)
    ensures m.updatedAt == "" ==> r == Some(today)
    ensures m.updatedAt != "" ==> r == m.updatedDay
  {
    if m.updatedAt == "" then Some(today) else m.updatedDay
  }

  function MfoPair(m: SitemapMfo, lastmod: string): seq<UrlEntry>
  {
    [UrlEntry(BaseUrl + "/mfo/" + m.slug, lastmod, 0.8, Weekly),
     UrlEntry(BaseUrl + "/ru/mfo/" + m.slug, lastmod, 0.8, Weekly)]
  }

  /** The MFO entries the loop pushes before it ends or throws: an included
      MFO whose date cannot be converted throws, and the `catch` keeps what
      was pushed before it. */
  function MfoEntries(mfos: seq<SitemapMfo>, today: string): seq<UrlEntry>
  {
    if mfos == [] then []
    else if !Included(mfos[0]) then MfoEntries(mfos[1..], today)
    else if LastMod(mfos[0], today).None? then []
    else MfoPair(mfos[0], LastMod(mfos[0], today).value) + MfoEntries(mfos[1..], today)
  }

  function FetchedMfos(outcome: FetchOutcome): seq<SitemapMfo>
  {
    if outcome.Fetched? then outcome.mfos else []
  }

  /** The `staticPages.forEach` loop of `GET`, over the table it is given. */
  method CollectStaticUrls(pages: seq<StaticPage>, today: string) returns (staticUrls: seq<UrlEntry>)
    ensures staticUrls == StaticEntries(pages, today)
  {
    staticUrls := [];
    for i := 0 to |pages|
      invariant staticUrls == FlatMap(pages[..i], PagePairs(today))
    {
      var page := pages[i];
      FlatMapSnoc(pages, i, PagePairs(today));
      var uk, ru := UkEntry(page, today), RuEntry(page, today);
      assert PagePairs(today)(page) == [uk, ru];
      staticUrls := staticUrls + [uk];
      staticUrls := staticUrls + [ru];
    }
    assert pages[..|pages|] == pages;
  }

  /** The `mfos.forEach` loop of `GET` inside its `try`: a throw ends the
      loop and keeps what was pushed. */
  method CollectMfoUrls(today: string, mfos: seq<SitemapMfo>) returns (mfoUrls: seq<UrlEntry>)
    ensures mfoUrls == MfoEntries(mfos, today)
  {
    mfoUrls := [];
    var i := 0;
    while i < |mfos|
      invariant 0 <= i <= |mfos|
      invariant MfoEntries(mfos, today) == mfoUrls + MfoEntries(mfos[i..], today)
    {
      var m := mfos[i];
      assert mfos[i..][1..] == mfos[i + 1..];
      if Included(m) {
        var lastmod := LastMod(m, today);
        if lastmod.None? {
          break;
        }
        mfoUrls := mfoUrls + [UrlEntry(BaseUrl + "/mfo/" + m.slug, lastmod.value, 0.8, Weekly)];
        mfoUrls := mfoUrls + [UrlEntry(BaseUrl + "/ru/mfo/" + m.slug, lastmod.value, 0.8, Weekly)];
      }
      i := i + 1;
    }
    assert i < |mfos| ==> MfoEntries(mfos[i..], today) == [];
  }

  /** `GET`: the static entries, then the MFO entries; a failed or malformed
      fetch leaves only the static ones. */
  method SitemapUrls(today: string, outcome: FetchOutcome) returns (urls: seq<UrlEntry>)
    ensures urls == StaticEntries(StaticPages, today) + MfoEntries(FetchedMfos(outcome), today)
  {
    var staticUrls := CollectStaticUrls(StaticPages, today);
    var mfoUrls: seq<UrlEntry> := [];
    if outcome.Fetched? {
      mfoUrls := CollectMfoUrls(today, outcome.mfos);
    }
    urls := staticUrls + mfoUrls;
  }

  /** The sitemap starts with the twelve static entries, whatever the fetch
      gave, and the Russian home page ends in "/ru/". */
  lemma StaticUrlsAlwaysListed(today: string, outcome: FetchOutcome)
    ensures |StaticEntries(StaticPages, today)| == 12
    ensures StaticEntries(StaticPages, today)[0].loc == BaseUrl
    ensures StaticEntries(StaticPages, today)[1].loc == "https://mfoxa.com.ua/ru/"
    ensures outcome.FetchFailed? || outcome.NotAnArray? ==> MfoEntries(FetchedMfos(outcome), today) == []
  {
    StaticEntriesSpec(StaticPages, today);
    var e := StaticEntries(StaticPages, today);
    assert e[0..2] == PagePair(StaticPages[0], today);
    assert StaticPages[0].path == "";
    assert e[0] == UkEntry(StaticPages[0], today);
    assert e[1] == RuEntry(StaticPages[0], today);
  }

  /** The MFOs that get entries: the included ones before the first
      included one whose date throws. */
  function Listed(mfos: seq<SitemapMfo>, today: string): (r: seq<SitemapMfo>)
    ensures |r| <= |mfos|
    ensures forall i :: 0 <= i < |r| ==> r[i] in mfos && Included(r[i]) && LastMod(r[i], today).Some?
  {
    if mfos == [] then []
    else if !Included(mfos[0]) then Listed(mfos[1..], today)
    else if LastMod(mfos[0], today).None? then []
    else [mfos[0]] + Listed(mfos[1..], today)
  }

  /** The two entries of a listed MFO (today stands in for a date that
      cannot occur, as listed MFOs have one). */
  function PairOf(today: string): SitemapMfo -> seq<UrlEntry>
  {
    m => MfoPair(m, match LastMod(m, today) case Some(d) => d case None => today)
  }

  lemma {:induction false} FlatMapCons<T, U>(x: T, s: seq<T>, f: T -> seq<U>)
    ensures FlatMap([x] + s, f) == f(x) + FlatMap(s, f)
  {
    if s != [] {
      var init := s[..|s| - 1];
      assert ([x] + s)[..|s|] == [x] + init;
      FlatMapCons(x, init, f);
    } else {
      assert [x] + s == [x];
    }
  }

  /** The MFO entries are the pairs of the listed MFOs, in order. */
  lemma {:induction false} MfoEntriesAreListedPairs(mfos: seq<SitemapMfo>, today: string)
    ensures MfoEntries(mfos, today) == FlatMap(Listed(mfos, today), PairOf(today))
  {
    if mfos != [] {
      MfoEntriesAreListedPairs(mfos[1..], today);
      if Included(mfos[0]) && LastMod(mfos[0], today).Some? {
        FlatMapCons(mfos[0], Listed(mfos[1..], today), PairOf(today));
      }
    }
  }

  /** The MFO entries come in pairs, one pair per listed MFO: its Ukrainian
      URL, then its Russian one, both weekly at priority 0.8 with the MFO's
      lastmod. */
  lemma MfoEntriesSpec(mfos: seq<SitemapMfo>, today: string)
    ensures |MfoEntries(mfos, today)| == 2 * |Listed(mfos, today)|
    ensures forall k :: 0 <= k < |Listed(mfos, today)| ==>
      MfoEntries(mfos, today)[2 * k .. 2 * k + 2]
        == MfoPair(Listed(mfos, today)[k], LastMod(Listed(mfos, today)[k], today).value)
  {
    MfoEntriesAreListedPairs(mfos, today);
    FlatMapPairs(Listed(mfos, today), PairOf(today));
  }

  /** When no included MFO has an invalid date, the listed MFOs are exactly
      the included ones, in order. */
  lemma {:induction false} ListedWithoutThrow(mfos: seq<SitemapMfo>, today: string)
    requires forall k :: 0 <= k < |mfos| && Included(mfos[k]) ==> LastMod(mfos[k], today).Some?
    ensures Listed(mfos, today) == Filter(mfos, Included)
  {
    if mfos != [] {
      ListedWithoutThrow(mfos[1..], today);
    }
  }

  /** When no included MFO has an invalid date, both entries of every
      included MFO are in the sitemap. */
  lemma {:induction false} EveryIncludedMfoListed(mfos: seq<SitemapMfo>, today: string, m: SitemapMfo)
    requires forall k :: 0 <= k < |mfos| && Included(mfos[k]) ==> LastMod(mfos[k], today).Some?
    requires m in mfos && Included(m)
    ensures MfoPair(m, LastMod(m, today).value)[0] in MfoEntries(mfos, today)
    ensures MfoPair(m, LastMod(m, today).value)[1] in MfoEntries(mfos, today)
  {
    if mfos[0] != m {
      assert m in mfos[1..];
      EveryIncludedMfoListed(mfos[1..], today, m);
    }
  }

  /** An included MFO whose date cannot be converted ends the list: it and
      every MFO after it are missing from the sitemap. */
  lemma {:induction false} InvalidDateDropsTheRest(pre: seq<SitemapMfo>, m: SitemapMfo, post: seq<SitemapMfo>, today: string)
    requires forall k :: 0 <= k < |pre| && Included(pre[k]) ==> LastMod(pre[k], today).Some?
    requires Included(m) && LastMod(m, today).None?
    ensures MfoEntries(pre + [m] + post, today) == MfoEntries(pre, today)
  {
    if pre == [] {
      assert pre + [m] + post == [m] + post;
    } else {
      assert (pre + [m] + post)[1..] == pre[1..] + [m] + post;
      InvalidDateDropsTheRest(pre[1..], m, post, today);
    }
  }
}
