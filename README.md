# mfoxa.com.ua: locale routing, structured data, sitemap and client forms

A Dafny model of the core of the mfoxa.com.ua site. The site is a Next.js
catalogue of Ukrainian microfinance organisations (MFOs) and has two
languages: Ukrainian (`ua`, served without a prefix) and Russian (`ru`,
served under `/ru`). The model covers these parts:

- **Locale routing.** The middleware rewrites unprefixed page paths to
  `/ua/...`.
- **Canonical and alternate URLs.** `generateAlternates` produces them, and
  the routes map holds the locale prefixes.
- **Breadcrumb trail** of the `Bread` component.
- **schema.org JSON-LD objects** that the `structured-data` components
  build:
  - the default WebPage;
  - the breadcrumb list, and the effect that removes duplicate structured-data
    scripts;
  - the loan, credit, MFO-list and MFO-rating item lists;
  - the company graph (WebPage, Organization, LoanOrCredit);
  - reviews, questions and answers, promocodes, the calculator and the
    author page.
- **Helpers in `app/lib/utils.ts`:**
  - rating fallbacks;
  - the min/max scan over tariff fields.
- **`sitemap.xml` route.**
- **Client state machines:**
  - the review and question modals;
  - the helpful-rating widget;
  - the expandable details text.

Each core file keeps its own form:

- Schema builders and URL helpers are pure, so they are datatypes and
  functions.
- Loops that update variables are methods with loop invariants, each proved
  equal to a specification function:
  - the dedup `forEach` over the document's scripts;
  - the reply collection in MicrodataQAP;
  - the sitemap pushes;
  - the extremes scan.
- React components whose `useState` hooks change step by step are classes:
  - the state fields are class fields;
  - every handler is a method with a `modifies` clause.

An `async` handler is split at its `await` into a `Begin…` method and a
`Finish…` method. The `Finish…` method takes the outcome of the network call
as a parameter.

Shared modules hold the JavaScript semantics that the code relies on:

- `Js`: truthiness, `||`, `??`, `trim`, `split`/`join`, `filter`, case mapping;
- `Sorting`: `Array.prototype.sort` as a stable sort;
- `JsMap`: `new Map(entries).values()`;
- `Dedup`: a `Set` used to keep first occurrences;
- `MfoRecords`: the MFO record and the offer, provider and rating objects
  that several builders share;
- `Site`: the base URL and the two languages.

The model takes as parameters:

- `decodeURIComponent` and `Math.sqrt` (as functions);
- the current date;
- the result of every network call;
- the date strings that `new Date(...)` parsing would produce.

## Model

| member | source | states |
|---|---|---|
| MetadataUtils.AlternatePath | app/lib/metadataUtils.ts:21 | the path is empty exactly for no segments, otherwise "/" followed by the segments joined with "/" |
| MetadataUtils.GenerateAlternates | app/lib/metadataUtils.ts:7-40 | uk-UA is the base URL plus the path, ru-UA adds "/ru", x-default is the uk-UA URL, and the canonical URL is the uk-UA one exactly when the language is "ua" and the ru-UA one otherwise |
| MetadataUtils.CanonicalExamples | app/lib/metadataUtils.ts:30-39 | the home page's Ukrainian canonical URL has no trailing slash; the Russian loan page is ".../ru/loan" |
| RoutesMap.RoutesShape | app/config/routesMap.ts:1-7 | the map has exactly the five routes; "about" maps to the empty path and every other key k to "/k" |
| RoutesMap.LocalePrefix | app/config/routesMap.ts:9-10 | the prefix is empty exactly for "ua", otherwise "/" plus the locale |
| Middleware.TrailingWordChars | middleware.ts:7 | the count is the length of the maximal run of word characters that ends the path |
| Middleware.ExtensionMatchesPattern | middleware.ts:7 | the file-extension test holds exactly when some dot is followed, up to the end, only by one or more word characters, as the regular expression `\.\w+$` does |
| Middleware.Route | middleware.ts:7-17 | a path is rewritten exactly when it starts with none of /ru, /ua, /api, /_next and has no file extension, and the target is "/ua" plus the path; otherwise the request passes through |
| Middleware.RouteIdempotent | middleware.ts:7-10 | a rewritten path is never rewritten a second time |
| Middleware.PrefixExamples | middleware.ts:7 | prefix tests are on raw text: "/rules" and "/uarticle" pass through unrewritten, like "/api/x" and "/ru/contacts" |
| Middleware.FileExample | middleware.ts:7 | "/favicon.ico" passes through |
| Middleware.PageExample | middleware.ts:8-10 | "/contacts" is rewritten to "/ua/contacts" |
| Utils.GetValidRatingOrCount | app/lib/utils.ts:1-8 | a truthy number is kept as its text; otherwise "100" for a count and "4.5" for a rating |
| Utils.ValidRatingOrCountNumber | app/lib/utils.ts:1-8 | the numeric result is never 0 and equals a truthy input |
| Utils.GetExtremeValuesByKey | app/lib/utils.ts:10-36 | the loop returns exactly the extremes that the specification scan gives |
| Utils.ExtremesSpec | app/lib/utils.ts:18-35 | min and max are both absent exactly when no item has a usable value at the key; otherwise both are values of some item, min <= max, and every usable value lies between them |
| Utils.ValidAtPermuted | app/lib/utils.ts:20-27 | whether a value occurs at the key depends only on the multiset of items |
| Utils.OrderIndependent | app/lib/utils.ts:10-36 | reordering the items does not change the extremes |
| Defaults.WilsonRating | app/structured-data/defaults.ts:3-20 | with no votes the stored rating is returned unchanged; with votes the clamp keeps the score in [0, 5] |
| Defaults.WilsonAtMostAverage | app/structured-data/defaults.ts:7-19 | for a rating in 0..5 with votes and a true square root, the score is a lower bound: at least 0 and at most the plain rating |
| Defaults.NegativeRadicand | app/structured-data/defaults.ts:16 | a rating of 10 with one vote puts a negative number under the square root (where `Math.sqrt` gives NaN) |
| Defaults.Clamp | app/structured-data/defaults.ts:19 | the result lies in [0, 5] and equals the input when the input is already in range |
| Defaults.DefaultWebPageSchema | app/structured-data/defaults.ts:49-83 | url is the base URL, the locale prefix and the path; inLanguage is uk-UA exactly for Ukrainian and ru-UA exactly for Russian; title, description and both dates are copied |
| Defaults.WebPageUrlIsCanonical | app/structured-data/defaults.ts:66 | the WebPage url equals the canonical URL that generateAlternates gives for the same segments and language |
| Settings.Setting | app/structured-data/LoanStructuredData.tsx:22 | a missing setting reads as the empty string, so the `||` fallback applies; a present one reads as its value |
| Bread.TranslationPresentIff | app/components/Bread.tsx:12-21 | a segment has a translation in a language exactly when it is one of the eight known keys |
| Bread.BreadSegments | app/components/Bread.tsx:26-35 | an empty pathname gives no segments; every segment is non-empty and has no "/" |
| Bread.SegmentsOfLocalizedPath | app/components/Bread.tsx:26-35 | the path of a page (segments non-empty, without "/", not starting with a locale) under the prefix "", "/ru" or "/ua" cuts back into exactly the page's segments |
| Bread.MapCapitalize | app/components/Bread.tsx:69 | each word is capitalised in place and the word count is kept |
| Bread.Crumbs | app/components/Bread.tsx:40-77 | one crumb per segment, each carrying the label and href of its position |
| Bread.Breadcrumbs | app/components/Bread.tsx:23-77 | one crumb per path segment; an empty pathname gives none |
| Bread.MfoCrumb | app/components/Bread.tsx:49-50 | an "mfo" segment links to the language prefix plus "/mfo" and is labelled "Рейтинг МФО" |
| Bread.CompanyCrumb | app/components/Bread.tsx:41-43 | an untranslated segment after "mfo" links to ".../mfo/<slug>", and its label is the company name when one is given, otherwise the humanised decoded slug |
| Bread.OtherCrumb | app/components/Bread.tsx:53-71 | any other segment links to the prefix plus the joined path so far; its label is its translation when it has one, otherwise the humanised decoded segment |
| Bread.RussianHrefs | app/components/Bread.tsx:38 | every Russian href is "/ru" followed by the Ukrainian href at the same position |
| Bread.HumanizeHasNoDash | app/components/Bread.tsx:67-70 | a humanised label contains no "-" |
| Bread.HrefMatchesCanonical | app/components/Bread.tsx:47-56 | for a path crumb, the base URL plus its href is the canonical URL of the path up to that crumb |
| StructuredData.WithoutLocales | app/structured-data/StructuredData.tsx:75-78 | the result is the input filtered by "not \"ru\" and not \"ua\"": same order, repetitions kept |
| StructuredData.FilteredSegments | app/structured-data/StructuredData.tsx:75-78 | the result is the non-empty "/"-pieces of the path filtered by "not a locale", in path order; every kept segment is non-empty, has no "/" and is not a locale code |
| StructuredData.Crumbs | app/structured-data/StructuredData.tsx:80-99 | a home item at position 1 pointing at the base URL, then one item per segment at position k + 1, named by the decoded segment and linking to its path prefix |
| StructuredData.CrumbUrlHasNoLocale | app/structured-data/StructuredData.tsx:90-97 | a crumb url is the uk-UA alternate of its path prefix, and that path splits back into the same segments |
| Js.Utf16Length | app/components/DetailsText.tsx:87 | `.length` counts UTF-16 code units: between the number of characters and twice that, and equal to it when every character is in the Basic Multilingual Plane |
| Js.PathOfJoin | app/structured-data/StructuredData.tsx:93 | splitting "/" + the joined segments on "/" gives back the segments |
| StructuredData.BreadcrumbUrlsAreDefaultLocale | app/structured-data/StructuredData.tsx:80-99 | whatever the language, every breadcrumb after Home points at the Ukrainian URL of its path prefix |
| StructuredData.RemoveDuplicateScripts | app/structured-data/StructuredData.tsx:103-118 | the loop leaves the document the specification describes: no two selected scripts with the same trimmed content, the same set of contents, and the unselected scripts unchanged and in order |
| StructuredData.DeduplicatedSpec | app/structured-data/StructuredData.tsx:103-118 | the remaining document has distinct selected contents, the same contents and the same unselected scripts |
| StructuredData.KeepFirstStep | app/structured-data/StructuredData.tsx:112-116 | one forEach step: a selected script whose content is already seen is removed, and every other script stays and adds its content to the seen set |
| StructuredData.RemoveDuplicatesIdempotent | app/structured-data/StructuredData.tsx:103-118 | running the effect a second time removes nothing |
| Dedup.KeepFirstSpec | app/structured-data/StructuredData.tsx:104-116 | keeping first occurrences leaves distinct keys and the same key set, keeps the unselected elements, and adds nothing |
| Dedup.DistinctIsFixed | app/structured-data/StructuredData.tsx:104-116 | when the keys are already distinct, nothing is removed |
| Dedup.KeepFirstIdempotent | app/structured-data/StructuredData.tsx:104-116 | keeping first occurrences twice equals doing it once |
| Js.TrimEmptyIff | app/structured-data/LoanStructuredData.tsx:39 | `s.trim()` is falsy exactly when every character is ECMAScript whitespace |
| Js.TrimIdempotent | app/structured-data/LoanStructuredData.tsx:45 | trimming a trimmed name changes nothing |
| Js.JoinSplit | app/components/Bread.tsx:28 | joining the pieces of `split(c)` with c gives back the string |
| Js.SplitJoin | app/components/Bread.tsx:54 | splitting a join of pieces that contain no separator gives back the pieces |
| Js.FilterAppend | app/structured-data/MicrodataPromocodes.tsx:29-31 | filtering keeps order: a filter of a concatenation is the concatenation of the filters |
| Sorting.SortDescSorted | app/structured-data/MfoPageStructuredData.tsx:19-23 | the sort orders its input by descending key |
| Sorting.SortDescStable | app/structured-data/MicrodataReviews.tsx:27-35 | the sort is stable: elements with equal keys keep their order |
| JsMap.SetSpec | app/structured-data/MfoPageStructuredData.tsx:26 | `map.set` replaces the value of an existing key in place and appends a new key at the end |
| JsMap.FromListSpec | app/structured-data/MfoPageStructuredData.tsx:25-27 | a Map built from a list has distinct keys in first-occurrence order, and each key carries the last element with that key |
| JsMap.FromListDistinct | app/structured-data/MfoPageStructuredData.tsx:25-27 | with distinct keys, the Map's values are the list itself |
| MicrodataQap.RootAnswer | app/structured-data/MicrodataQAP.tsx:55-74 | the legacy answer exists exactly when the answer text is non-empty; it is an Organization answer exactly when an author or MFO name is given, falls back to "MFoxa", and always has vote counts |
| MicrodataQap.ReplyAnswer | app/structured-data/MicrodataQAP.tsx:104-116 | a reply answer carries the reply's text, is by a Person, and always has an author name |
| MicrodataQap.CollectCandidates | app/structured-data/MicrodataQAP.tsx:77-90 | the loop collects exactly the specified reply candidates |
| MicrodataQap.CandidatesSpec | app/structured-data/MicrodataQAP.tsx:77-90 | the candidates are the nested replies followed by flat replies to the question, each flat one with an id not seen before; every flat reply's id is among them |
| MicrodataQap.CollectAnswers | app/structured-data/MicrodataQAP.tsx:93-119 | the loop produces exactly the specified answers |
| MicrodataQap.ReplyAnswersCount | app/structured-data/MicrodataQAP.tsx:93-119 | one answer is added per distinct id of a candidate with text, and the seen set is exactly those ids |
| MicrodataQap.ReplyAnswersFrom | app/structured-data/MicrodataQAP.tsx:93-119 | the legacy answer stays first, and every added answer was built from a candidate with non-empty text |
| MicrodataQap.Schema | app/structured-data/MicrodataQAP.tsx:122-137 | answerCount is the number of answers; the first answer is accepted and the rest are suggested, each present exactly when there are answers for it; name, text and vote counts come from the question |
| MicrodataQap.QuestionSchemaSpec | app/structured-data/MicrodataQAP.tsx:51-137 | answerCount is the legacy answer plus one per distinct answered reply id, and a legacy answer is the accepted one |
| MicrodataQap.BuildSchema | app/structured-data/MicrodataQAP.tsx:51-137 | the per-question steps give exactly the specified Question object |
| MicrodataQap.Roots | app/structured-data/MicrodataQAP.tsx:49 | the roots are exactly the questions that are not replies |
| MicrodataQap.RootsInOrder | app/structured-data/MicrodataQAP.tsx:49 | the roots equal `questions.filter(q => !q.isReply)`: input order and repetitions kept |
| MicrodataQap.Schemas | app/structured-data/MicrodataQAP.tsx:51 | one Question object per root, in order |
| MicrodataQap.MicrodataQap | app/structured-data/MicrodataQAP.tsx:36-140 | the loop over the questions gives exactly the specified mainEntity |
| MicrodataQap.MainEntityShape | app/structured-data/MicrodataQAP.tsx:36-139 | there is no output exactly for an empty question list; otherwise there are as many Question objects as non-reply questions, the k-th named after the k-th of them and counting its own answer plus its distinct answered replies |
| MfoRecords.OfferName | app/structured-data/CreditsListStructuredData.tsx:55-60 | "new" and "repeat" clients get their own offer names, and every other client type gets "Кредит" |
| MfoRecords.MakeOffer | app/structured-data/CreditsListStructuredData.tsx:52-84 | an offer copies amounts, terms, rate and APR from the catalogue offer, links to the MFO's get-money button, and names the MFO as the item |
| MfoRecords.MakesOffer | app/structured-data/LoanStructuredData.tsx:68-105 | makesOffer is present exactly when the MFO has catalogue offers, and holds one offer per catalogue offer, in order |
| MfoRecords.MakeProvider | app/structured-data/CreditsListStructuredData.tsx:39-51 | the provider is named by the legal entity, or the MFO name when that is empty; the licence is present exactly when the NBU licence is non-empty |
| MfoRecords.MakeRating | app/structured-data/CreditsListStructuredData.tsx:32-38 | rating 0 falls back to 5 and count 0 falls back to 1, so the rating is never 0 and the count is at least 1 |
| MfoRecords.ItemUrl | app/structured-data/LoanStructuredData.tsx:46-49 | the item url is the redirect URL, else the official website, else the site's own MFO page |
| MfoRecords.SiteMfoUrlIsCanonical | app/structured-data/LoanStructuredData.tsx:46-49 | the site's own MFO page URL is the canonical URL of /mfo/<slug> in that language |
| CreditsList.CreditItem | app/structured-data/CreditsListStructuredData.tsx:25-86 | name, Ukrainian MFO URL, page, rating with fallbacks, provider and offers of a credit |
| CreditsList.CreditsItemList | app/structured-data/CreditsListStructuredData.tsx:16-88 | one item per credit at position i + 1, numberOfItems is the number of credits, and the list is named by the page title |
| CreditsList.CreditUrlIsUkrainianCanonical | app/structured-data/CreditsListStructuredData.tsx:28 | a credit URL is the Ukrainian canonical MFO page, whatever the page language |
| MfoList.MfoListItems | app/structured-data/MfoListStructuredData.tsx:20-34 | one item per company, with its position, name and URL; a falsy rating becomes 5 and a falsy review count becomes 1 |
| MfoList.RatingsNeverZero | app/structured-data/MfoListStructuredData.tsx:29-31 | no listed rating value or count is 0 |
| LoanStructured.LoanItem | app/structured-data/LoanStructuredData.tsx:40-108 | the item has the trimmed name, the redirect/official/site URL, the logo as logo and image, the loan page as mainEntityOfPage, and the shared rating, provider and offers |
| LoanStructured.LoanElements | app/structured-data/LoanStructuredData.tsx:39-108 | one element per MFO with a non-blank name, numbered from 1 in order |
| LoanStructured.LoanSchemas | app/structured-data/LoanStructuredData.tsx:19-125 | the WebPage is always present; the ItemList is present exactly when the MFO list is non-empty, and counts only the named MFOs |
| LoanStructured.MainEntityIsThePage | app/structured-data/LoanStructuredData.tsx:51 | every item's mainEntityOfPage is the WebPage url |
| LoanStructured.BlankNamesGiveEmptyList | app/structured-data/LoanStructuredData.tsx:38-39 | a non-empty list of MFOs that all have blank names still produces an ItemList, with zero items |
| LoanSlug.ReviewCount | app/structured-data/LoanSlugStructuredData.tsx:96-99 | a positive count is kept, and anything else becomes 1 |
| LoanSlug.MakeOffer | app/structured-data/LoanSlugStructuredData.tsx:52-90 | offer name and URL come from the offer; the APR uses `??`, so 0 is kept; the provider is the legal name or the loan name; the licence is present exactly when it is non-empty |
| LoanSlug.MakeService | app/structured-data/LoanSlugStructuredData.tsx:39-107 | makesOffer is present exactly when offers are, one per offer; the rating uses `?? 5`; the review count is positive; a missing logo gives the site logo |
| LoanSlug.LoanSlugItemList | app/structured-data/LoanSlugStructuredData.tsx:39-107 | one service per loan at position i + 1, with numberOfItems equal to the number of loans |
| LoanSlug.ZeroHandling | app/structured-data/LoanSlugStructuredData.tsx:74-99 | a zero rating or APR is kept, because `??` only replaces missing values, while a zero review count becomes 1 |
| MfoPage.SortedSpec | app/structured-data/MfoPageStructuredData.tsx:19-23 | the sort is a permutation, in descending Wilson score, and stable for equal scores |
| MfoPage.UniqueSpec | app/structured-data/MfoPageStructuredData.tsx:25-27 | each slug appears once, in order of its first sorted occurrence, carrying the last sorted MFO with that slug |
| MfoPage.UniqueSlugs | app/structured-data/MfoPageStructuredData.tsx:25-27 | the unique list has distinct slugs, and every input slug is represented |
| MfoPage.UniqueWhenSlugsDistinct | app/structured-data/MfoPageStructuredData.tsx:25-27 | with distinct slugs, deduplication keeps the sorted list as it is |
| MfoPage.Elements | app/structured-data/MfoPageStructuredData.tsx:39-59 | one organisation per MFO with a non-blank name, at position i + 1, with the trimmed non-empty name, the item URL and the shared rating |
| MfoPage.MfoPageSchemas | app/structured-data/MfoPageStructuredData.tsx:29-77 | the WebPage is always present; the ItemList is present exactly when some unique MFO has a name, and lists exactly those |
| MicrodataCompany.DateOr | app/structured-data/MicrodataCompany.tsx:49-50 | the page date, else the record date, else now |
| MicrodataCompany.CompanyWebPage | app/structured-data/MicrodataCompany.tsx:52-65 | the company page URL in its language, the name with its default, and both dates with their fallbacks |
| MicrodataCompany.OrganizationIdIsCanonical | app/structured-data/MicrodataCompany.tsx:67 | the organisation @id is the company page's canonical URL plus "#organization" |
| MicrodataCompany.TariffOffers | app/structured-data/MicrodataCompany.tsx:98-105 | no tariffs give no offers; otherwise one offer per tariff, in order |
| MicrodataCompany.RangeOr | app/structured-data/MicrodataCompany.tsx:116-137 | a present non-zero extreme is used, and a missing or zero one gives the default |
| MicrodataCompany.LoanRangesAsWritten | app/structured-data/MicrodataCompany.tsx:119-135 | as written, a record without tariffs throws; with tariffs, the ranges come from the extremes |
| MicrodataCompany.AbsentTariffsThrow | app/structured-data/MicrodataCompany.tsx:119-135 | the as-written ranges fail on a record without tariffs |
| MicrodataCompany.LoanRangesOf | app/structured-data/MicrodataCompany.tsx:116-137 | with tariffs, the ranges come from the tariff extremes |
| MicrodataCompany.LoanRangesDefaults | app/structured-data/MicrodataCompany.tsx:116-137 | without tariffs the default ranges are used; with tariffs the corrected ranges agree with the as-written ones |
| MicrodataCompany.RangeBounds | app/structured-data/MicrodataCompany.tsx:116-137 | every tariff value lies within the published range, unless that extreme is 0 |
| MicrodataCompany.CompanyGraph | app/structured-data/MicrodataCompany.tsx:69-145 | the loan's provider @id is the organisation's @id; the organisation has the record's name, URL, rating and tariff offers; the loan has the tariff ranges, computed with the corrected guard for a missing tariff list (see Findings); the graph includes the company WebPage |
| MicrodataReviews.ReviewKey | app/structured-data/MicrodataReviews.tsx:27-35 | the sort key has three parts: date, helpfulness, rating |
| MicrodataReviews.KeyOrder | app/structured-data/MicrodataReviews.tsx:27-35 | ordering by the key is the comparator's order: newer first, then more helpful, then higher rated |
| MicrodataReviews.SortedReviewsSpec | app/structured-data/MicrodataReviews.tsx:27-35 | the sorted reviews are a permutation in comparator order, and ties keep their input order |
| MicrodataReviews.ReviewOf | app/structured-data/MicrodataReviews.tsx:53-77 | the author defaults to "Аноним"; the rating never becomes 0; the admin comment is present exactly when there is a response, and its author defaults to the company name |
| MicrodataReviews.ReviewsOf | app/structured-data/MicrodataReviews.tsx:53-77 | one review object per sorted review, in order |
| MicrodataReviews.ReviewsSchema | app/structured-data/MicrodataReviews.tsx:18-78 | there is output exactly when the response has a non-empty review list; it names the company, uses its page URL and lists the sorted reviews |
| MicrodataReviews.AggregateFallback | app/structured-data/MicrodataReviews.tsx:44-45 | with no MFO record, rating and count are 0; a truthy average is published as it is |
| MicrodataReviews.EveryReviewListed | app/structured-data/MicrodataReviews.tsx:27-77 | every input review is listed, and every listed review comes from an input review |
| MicrodataPromocodes.OfferOf | app/structured-data/MicrodataPromocodes.tsx:32-47 | an offer copies title, description, redirect URL and validity, and is offered by the company |
| MicrodataPromocodes.PromocodesSchema | app/structured-data/MicrodataPromocodes.tsx:26-47 | the list name is "Промокоды <company>", with one offer per usable promocode at position i + 1 |
| MicrodataPromocodes.ListedIffUsable | app/structured-data/MicrodataPromocodes.tsx:29-31 | every listed offer has a non-blank title and URL, and every usable promocode is listed |
| MicrodataPromocodes.KeptInOrder | app/structured-data/MicrodataPromocodes.tsx:29-31 | the filter keeps order across concatenation |
| MicrodataCalculator.AppName | app/structured-data/MicrodataCalculator.tsx:13-16 | the Russian and Ukrainian application names, each followed by the company |
| MicrodataCalculator.Slug | app/structured-data/MicrodataCalculator.tsx:19-21 | the slug has the name's length; each whitespace character becomes "-" and every other character is lower-cased |
| MicrodataCalculator.SlugIdempotent | app/structured-data/MicrodataCalculator.tsx:19-21 | a slug is its own slug |
| MicrodataCalculator.SlugIgnoresCaseAndSpacing | app/structured-data/MicrodataCalculator.tsx:19-21 | names that differ only in letter case and in which whitespace characters they use give the same slug |
| MicrodataCalculator.LowerCharIdempotent | app/structured-data/MicrodataCalculator.tsx:20 | lower-casing twice equals lower-casing once |
| MicrodataCalculator.CalculatorSchema | app/structured-data/MicrodataCalculator.tsx:10-40 | the application's name, its URL with the slug, price "0", and the fixed 5/1 rating |
| AuthorStructured.OrUndefined | app/structured-data/AuthorStructuredData.tsx:25-26 | an empty string becomes undefined, and any other string is kept |
| AuthorStructured.AuthorSchema | app/structured-data/AuthorStructuredData.tsx:15-35 | there is output exactly when an author is given; it has the page URL, language, name, optional image and job, and the description |
| AuthorStructured.PiecesKept | app/structured-data/AuthorStructuredData.tsx:27-33 | the description pieces are the non-empty fields, in order |
| AuthorStructured.DescriptionEmptyIff | app/structured-data/AuthorStructuredData.tsx:27-33 | the description is empty exactly when all three fields are empty |
| AuthorStructured.DescriptionAllPresent | app/structured-data/AuthorStructuredData.tsx:27-33 | the three fields are joined with ", " |
| AuthorStructured.DescriptionOnePresent | app/structured-data/AuthorStructuredData.tsx:27-33 | a single field is published without separators |
| Sitemap.UkStaticLocAsWritten | app/sitemap.xml/route.ts:35 | as written, the loc is the base URL and the path with nothing between them |
| Sitemap.UkStaticLocMissesSlash | app/sitemap.xml/route.ts:35 | as written, "contacts" gives "https://mfoxa.com.uacontacts", which is not the canonical URL |
| Sitemap.UkStaticLocIsCanonical | app/sitemap.xml/route.ts:33-40 | the corrected Ukrainian loc is the canonical URL of the page |
| Sitemap.UkStaticLocSegments | app/sitemap.xml/route.ts:33-40 | the corrected loc stays on the site, and its path is the single page segment |
| Sitemap.RuStaticLocIsCanonical | app/sitemap.xml/route.ts:45 | the Russian loc is the canonical Russian URL for a page, and ".../ru/" for the home page |
| Sitemap.StaticEntriesSpec | app/sitemap.xml/route.ts:31-51 | two entries per static page, Ukrainian then Russian, in table order |
| Sitemap.CollectStaticUrls | app/sitemap.xml/route.ts:29-51 | the loop pushes exactly the specified static entries, with the corrected Ukrainian loc (see Findings) |
| Sitemap.LastMod | app/sitemap.xml/route.ts:61-63 | a missing update date gives today, and a present one gives its day, or an error for an invalid date |
| Sitemap.CollectMfoUrls | app/sitemap.xml/route.ts:58-85 | the loop pushes exactly the specified MFO entries, up to the first invalid date |
| Sitemap.SitemapUrls | app/sitemap.xml/route.ts:24-96 | the sitemap is the static entries (with the corrected Ukrainian loc, see Findings) followed by the MFO entries of the fetch outcome |
| Sitemap.StaticUrlsAlwaysListed | app/sitemap.xml/route.ts:4-51 | the twelve static entries start with the two home pages and are listed whatever the fetch does; a failed or non-array fetch adds nothing |
| Sitemap.Listed | app/sitemap.xml/route.ts:58-85 | the listed MFOs come from the input, are included, and have a usable last-modified date |
| Sitemap.MfoEntriesAreListedPairs | app/sitemap.xml/route.ts:58-85 | the MFO entries are the listed MFOs' pairs, in order |
| Sitemap.MfoEntriesSpec | app/sitemap.xml/route.ts:66-83 | two entries per listed MFO, Ukrainian then Russian, with its last-modified date |
| Sitemap.ListedWithoutThrow | app/sitemap.xml/route.ts:60 | with no invalid dates, the listed MFOs are exactly those with a slug that are not inactive |
| Sitemap.EveryIncludedMfoListed | app/sitemap.xml/route.ts:60-83 | with no invalid dates, both entries of every included MFO are in the sitemap |
| Sitemap.InvalidDateDropsTheRest | app/sitemap.xml/route.ts:61-63 | an invalid update date throws inside the loop, and the catch at lines 87-90 keeps only the entries pushed before it |
| DetailsText.FullHtml | app/components/DetailsText.tsx:18 | missing HTML is the empty string |
| DetailsText.StripTags | app/components/DetailsText.tsx:21-23 | the visible text contains no "<" and is no longer than the HTML |
| DetailsText.StripTagsPlain | app/components/DetailsText.tsx:21-23 | text without tags is its own visible text |
| DetailsText.StripTagsIdempotent | app/components/DetailsText.tsx:21-23 | stripping twice equals stripping once |
| DetailsText.StripTagsExample | app/components/DetailsText.tsx:21-23 | an unclosed tag swallows the rest of the string |
| DetailsText.TruncateHtmlShortcut | app/components/DetailsText.tsx:25-33 | the HTML is returned as it is exactly on the server or when its text, counted in UTF-16 code units, is within the limit |
| DetailsText.DisplayedContent | app/components/DetailsText.tsx:89-91 | the guard `true \|\| …` always displays the full HTML |
| DetailsText.DetailsTextView.constructor | app/components/DetailsText.tsx:11-18 | collapsed, not truncating, holding the full HTML |
| DetailsText.DetailsTextView.ToggleExpanded | app/components/DetailsText.tsx:14-16 | flips the expanded flag and nothing else |
| DetailsText.DetailsTextView.SyncShouldTruncate | app/components/DetailsText.tsx:86-96 | shouldTruncate becomes whether the visible text exceeds 300 UTF-16 code units: always when it has more than 300 characters, never when it has at most 150 |
| ReviewModal.RatingOf | app/components/Modals/ReviewModal.tsx:76-110 | an unset rating key reads as 0 |
| ReviewModal.Check | app/components/Modals/ReviewModal.tsx:76-110 | missing fields or ratings are reported first, then a missing policy agreement; otherwise the payload with all four ratings is sent |
| ReviewModal.SentReviewIsComplete | app/components/Modals/ReviewModal.tsx:76-97 | a sent review has non-empty name, email and text, four non-zero ratings, and the policy accepted |
| ReviewModal.ReviewForm.constructor | app/components/Modals/ReviewModal.tsx:56-61 | the form starts empty, with no ratings and the policy not accepted |
| ReviewModal.ReviewForm.HandleStarClick | app/components/Modals/ReviewModal.tsx:71-73 | sets one rating, leaves the others, and lights exactly the stars up to the value |
| ReviewModal.ReviewForm.TogglePolicy | app/components/Modals/ReviewModal.tsx:230-234 | flips the policy flag and nothing else |
| ReviewModal.ReviewForm.BeginSubmit | app/components/Modals/ReviewModal.tsx:75-110 | returns the verdict on the current fields and starts submitting only when it sends |
| ReviewModal.ReviewForm.FinishSubmit | app/components/Modals/ReviewModal.tsx:111-126 | on success the form is reset and the success toast shown; on failure the fields are kept and the error toast shown; submitting always ends |
| QapModal.Check | app/components/Modals/QapModal.tsx:47-65 | empty fields first, then the policy; otherwise the question payload is sent |
| QapModal.QuestionForm.constructor | app/components/Modals/QapModal.tsx:40-44 | the form starts empty, with the policy not accepted |
| QapModal.QuestionForm.TogglePolicy | app/components/Modals/QapModal.tsx:165-169 | flips the policy flag and nothing else |
| QapModal.QuestionForm.BeginSubmit | app/components/Modals/QapModal.tsx:46-65 | returns the verdict and starts submitting only when it sends |
| QapModal.QuestionForm.FinishSubmit | app/components/Modals/QapModal.tsx:66-77 | on success the text fields are cleared but the policy agreement is kept; on failure the fields are kept; submitting always ends |
| QapModal.SecondQuestionKeepsPolicy | app/components/Modals/QapModal.tsx:66-77 | after a successful question, a second one with new fields is sent without accepting the policy again |
| InfoHelpful.Round | app/components/InfoHelpfulClient.tsx:106 | Math.round: the nearest integer, with halves rounded up |
| InfoHelpful.Language | app/components/InfoHelpfulClient.tsx:46 | "ua" becomes "uk" and every other locale becomes "ru" |
| InfoHelpful.FilledIsPrefix | app/components/InfoHelpfulClient.tsx:105-111 | filled stars always form a prefix of the row |
| InfoHelpful.RatingWidget.constructor | app/components/InfoHelpfulClient.tsx:21-30 | starts unrated and idle, with the author's average and total or 0 |
| InfoHelpful.RatingWidget.BeginRate | app/components/InfoHelpfulClient.tsx:38-47 | a request goes out exactly when there is an author, no request in flight and no rating yet, with the author, the stars and the language |
| InfoHelpful.RatingWidget.FinishRate | app/components/InfoHelpfulClient.tsx:48-63 | success stores the server's figures and marks the author rated; an error with a message marks rated without changing the figures; submitting always ends; after success, and whenever the author is rated, exactly the stars up to the rounded (new) average are filled |
| InfoHelpful.RatingWidget.MouseEnter | app/components/InfoHelpfulClient.tsx:126-128 | before rating, hovering a star previews exactly the stars up to it; after rating, nothing changes |
| InfoHelpful.RatingWidget.MouseLeave | app/components/InfoHelpfulClient.tsx:129-131 | before rating, leaving clears the preview; after rating, nothing changes |

## Left out

- Organization, WebSite and other static objects: the fixed Organization and WebSite objects (app/structured-data/StructuredData.tsx:13-72) the fixed isPartOf/publisher parts of the default WebPage (app/structured-data/defaults.ts:70-82) and the QAPage wrapper with its "@context", "@type" and the `datePublished`/`dateModified` copied from the page dates (app/structured-data/MicrodataQAP.tsx:142-147) are constants or plain copies with no logic. Only `mainEntity` is modelled.
- JSON serialisation: `JSON.stringify`, the `<script>` elements and all JSX rendering are not modelled. Schemas are values.
- Sitemap XML: the `<url>` template text, `priority.toFixed(1)` and the XML envelope are not modelled. The model produces the list of (loc, lastmod, changefreq, priority) entries.
- Date handling: `new Date(...)` parsing, `toISOString` and `getTime` become inputs. Each record carries its parsed day or timestamp, and an invalid date becomes an absent day.
- NaN in comparators: the review and MFO sorts take numeric keys, and a NaN key from an unparsable date is not modelled.
- Defaults.WilsonRating: the square root is the parameter `sqrt`, a function to the reals. For a rating outside 0..5 with votes, the radicand can be negative (`NegativeRadicand`: rating 10 with one vote). There `Math.sqrt` gives NaN, `Math.max`/`Math.min` pass the NaN on, and the MFO sort compares NaN scores. The model's `sqrt` returns a real there, so its bound of [0, 5] on a score holds only in the model, not in JavaScript. For ratings in 0..5 no NaN arises, and `WilsonAtMostAverage` holds.
- decodeURIComponent and Math.sqrt: both are parameters (`decode`, `sqrt`). A malformed escape that makes `decodeURIComponent` throw is not modelled.
- Case mapping: `toUpperCase`/`toLowerCase` are exact for ASCII and the basic Cyrillic alphabet only; other characters are left unchanged.
- DetailsText: the DOM walk of `truncateHtml` (app/components/DetailsText.tsx:35-82) needs a DOM and is only reachable through a guard that is always true, so only its shortcut is modelled.
- DetailsText.StripTags: the regular expression `/<[^>]*>?/gm` is modelled character by character. HTML entities are counted as written, as the source counts them.
- Network calls: `rateAuthor`, the review and question POSTs and `getMFOs` are outcome parameters of the `Finish…` methods and of the sitemap.
- Toast display and `onClose`: the model returns the toast to show.
- ReviewModal.ReviewForm.BeginSubmit and QapModal.QuestionForm.BeginSubmit: neither requires that no request is in flight. The page disables the send button while `isSubmitting` (app/components/Modals/ReviewModal.tsx:221, app/components/Modals/QapModal.tsx:155), so a second call during a request does not arise there. The model describes such a call anyway, which is more than the page allows.
- Form inputs: the name/email/text setters and the `isOpen` rendering are plain assignments and are not separate methods.
- InfoHelpful page URL: `pageUrl` from `window.location` (app/components/InfoHelpfulClient.tsx:31-36) is browser state and is passed as a parameter of the author schema.
- React timing: re-render and effect scheduling are reduced to explicit method calls (`SyncShouldTruncate` stands for the effect).
- MicrodataQAP: the `typeof window` test, the unused `allRepliesById` map (app/structured-data/MicrodataQAP.tsx:41-46) and `null` entries in a replies array are not modelled. Every reply is a record.
- MicrodataCompany.TariffOffers: a tariff name is a string, and an empty one falls back to "Тариф i+1". Names of other JavaScript types are not modelled.
- Utils.GetExtremeValuesByKey: `parseFloat` is not modelled. A string field carries the number `parseFloat` would give, or none for NaN.
- Integers and reals: ratings, counts and amounts are unbounded `int`/`real`. Floating-point rounding is not modelled.

## Findings

| source | as written | input that shows it | evidently intended | confidence | as-written member | corrected member |
|---|---|---|---|---|---|---|
| app/sitemap.xml/route.ts:35 | the Ukrainian static loc is `${baseUrl}${page.path}`, with no "/" between the host and a non-empty path | the "contacts" page gives "https://mfoxa.com.uacontacts" | base URL, "/" and the path, like the Russian loc at line 45 and the canonical URL | not executed | Sitemap.UkStaticLocMissesSlash | Sitemap.UkStaticLocIsCanonical |
| app/structured-data/MicrodataCompany.tsx:119-135 | `getExtremeValuesByKey(data.tariffs, …)` is called without a guard, and its `for … of` loop throws a TypeError on `undefined` | an MFO record whose `tariffs` field is absent | the default ranges, as for tariffs that have no values; line 99 guards the same field with `?.` | not executed | MicrodataCompany.AbsentTariffsThrow | MicrodataCompany.LoanRangesDefaults |
