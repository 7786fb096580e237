/** The site-wide structured data of app/structured-data/StructuredData.tsx:
    the schema.org BreadcrumbList built from the current path, and the
    removal of structured-data scripts whose content repeats an earlier one. */
module StructuredData {
  import opened Js
  import opened Site
  import MetadataUtils
  import Dedup

  /** A segment that is not a locale code. */
  predicate NotLocale(segment: string) {
    segment != "ru" && segment != "ua"
  }

  /** The path segments without any locale segment, wherever it stands:
      `.filter(s => s !== "ru" && s !== "ua")`, which keeps order and
      repetitions. */
  function WithoutLocales(segments: seq<string>): (r: seq<string>)
    ensures r == Filter(segments, NotLocale)
    ensures |r| <= |segments|
    ensures forall i :: 0 <= i < |r| ==> r[i] in segments && r[i] != "ru" && r[i] != "ua"
    ensures forall s :: s in segments && s != "ru" && s != "ua" ==> s in r
  {
    if segments == [] then []
    else if segments[0] == "ru" || segments[0] == "ua" then WithoutLocales(segments[1..])
    else [segments[0]] + WithoutLocales(segments[1..])
  }

  /** The non-empty "/"-pieces of the path that are not locale codes, in
      path order. */
  function FilteredSegments(pathname: string): (r: seq<string>)
    ensures r == Filter(PathSegments(pathname), NotLocale)
    ensures forall i :: 0 <= i < |r| ==> r[i] != "" && '/' !in r[i] && r[i] != "ru" && r[i] != "ua"
  {
    var segments := PathSegments(pathname);
    var r := WithoutLocales(segments);
    assert forall i :: 0 <= i < |r| ==> r[i] in segments;
    r
  }

  /** A schema.org ListItem: position, name and the URL in `item`. */
  datatype ListItem = ListItem(position: nat, name: string, item: string)

  function HomeName(lang: Lang): string
  {
    if lang == Ua then "Головна" else "Главная"
  }

  /** The URL of the crumb for the first `n` filtered segments. */
  function CrumbUrl(filtered: seq<string>, n: nat): string
    requires n <= |filtered|
  {
    BaseUrl + "/" + Join(filtered[..n], "/")
  }

  /** The crumbs of the filtered segments: the home page, then one per
      segment, numbered from 1. */
  function Crumbs(filtered: seq<string>, lang: Lang, decode: string -> string): (r: seq<ListItem>)
    ensures |r| == |filtered| + 1
    ensures r[0].name == HomeName(lang) && r[0].item == BaseUrl
    ensures forall k :: 0 <= k < |r| ==> r[k].position == k + 1
    ensures forall idx :: 0 <= idx < |filtered| ==>
      r[idx + 1].name == decode(filtered[idx]) && r[idx + 1].item == CrumbUrl(filtered, idx + 1)
  {
    var tail := seq(|filtered|, idx requires 0 <= idx < |filtered| =>
      ListItem(idx + 2, decode(filtered[idx]), CrumbUrl(filtered, idx + 1)));
    [ListItem(1, HomeName(lang), BaseUrl)] + tail
  }

  /** `itemListElement` of the BreadcrumbList; `decode` stands for
      `decodeURIComponent`. */
  function BreadcrumbList(pathname: string, lang: Lang, decode: string -> string): seq<ListItem>
  {
    Crumbs(FilteredSegments(pathname), lang, decode)
  }

  /** The crumb URLs are the default-locale (uk-UA) alternates of the pages
      they stand for, and the path of each one cuts back into exactly its
      segments, none of which is a locale: no crumb carries "/ru". */
  lemma CrumbUrlHasNoLocale(filtered: seq<string>, n: nat)
    requires 1 <= n <= |filtered|
    requires forall i :: 0 <= i < |filtered| ==> filtered[i] != "" && '/' !in filtered[i]
    ensures CrumbUrl(filtered, n) == MetadataUtils.GenerateAlternates(filtered[..n], "ua").ukUA
    ensures CrumbUrl(filtered, n) == BaseUrl + "/" + Join(filtered[..n], "/")
    ensures PathSegments("/" + Join(filtered[..n], "/")) == filtered[..n]
  {
    PathOfJoin(filtered[..n]);
  }

  /** Every crumb after the home page links to the default-locale URL of
      the path up to its segment, whatever locale segments the path had. */
  lemma BreadcrumbUrlsAreDefaultLocale(pathname: string, lang: Lang, decode: string -> string, idx: nat)
    requires idx < |FilteredSegments(pathname)|
    ensures BreadcrumbList(pathname, lang, decode)[idx + 1].item
      == MetadataUtils.GenerateAlternates(FilteredSegments(pathname)[..idx + 1], "ua").ukUA
  {
    var f := FilteredSegments(pathname);
    var r := Crumbs(f, lang, decode);
    assert r[idx + 1].item == CrumbUrl(f, idx + 1);
    CrumbUrlHasNoLocale(f, idx + 1);
  }

  /** A script element of the document: its id and its inner HTML. */
  datatype Script = Script(id: string, innerHTML: string)

  /** The scripts the effect looks at: `script[id^="structured-data"]`. */
  const IdPrefix: string := "structured-data"

  predicate Selected(s: Script) {
    StartsWith(s.id, IdPrefix)
  }

  function Content(s: Script): string {
    Trim(s.innerHTML)
  }

  /** The document after the effect, as a function of the one before: a
      selected script goes when an earlier selected script had the same
      trimmed content. */
  function Deduplicated(doc: seq<Script>): seq<Script>
  {
    Dedup.KeepFirst(doc, Selected, Content)
  }

  /** The `useEffect` loop: a `seen` set of trimmed contents, and the
      removal of every selected script whose content was already seen. */
  method RemoveDuplicateScripts(doc: seq<Script>) returns (remaining: seq<Script>)
    ensures remaining == Deduplicated(doc)
    ensures Dedup.Distinct(remaining, Selected, Content)
    ensures Dedup.Keys(remaining, Selected, Content) == Dedup.Keys(doc, Selected, Content)
    ensures Dedup.Unselected(remaining, Selected) == Dedup.Unselected(doc, Selected)
  {
    var seen: set<string> := {};
    remaining := [];
    for i := 0 to |doc|
      invariant seen == Dedup.Keys(doc[..i], Selected, Content)
      invariant remaining == Dedup.KeepFirst(doc[..i], Selected, Content)
    {
      var el := doc[i];
      assert doc[..i + 1] == doc[..i] + [el];
      KeepFirstStep(doc[..i], el);
      if Selected(el) {
        var content := Trim(el.innerHTML);
        assert content == Content(el);
        if content in seen {
          // el.remove()
        } else {
          seen := seen + {content};
          remaining := remaining + [el];
        }
      } else {
        remaining := remaining + [el];
      }
    }
    assert doc[..|doc|] == doc;
    DeduplicatedSpec(doc);
  }

  lemma DeduplicatedSpec(doc: seq<Script>)
    ensures Dedup.Distinct(Deduplicated(doc), Selected, Content)
    ensures Dedup.Keys(Deduplicated(doc), Selected, Content) == Dedup.Keys(doc, Selected, Content)
    ensures Dedup.Unselected(Deduplicated(doc), Selected) == Dedup.Unselected(doc, Selected)
  {
    Dedup.KeepFirstSpec(doc, Selected, Content);
  }

  lemma KeepFirstStep(prefix: seq<Script>, el: Script)
    ensures Dedup.Keys(prefix + [el], Selected, Content)
      == Dedup.Keys(prefix, Selected, Content) + (if Selected(el) then {Content(el)} else {})
    ensures Dedup.KeepFirst(prefix + [el], Selected, Content)
      == Dedup.KeepFirst(prefix, Selected, Content)
         + (if Selected(el) && Content(el) in Dedup.Keys(prefix, Selected, Content) then [] else [el])
  {
    assert (prefix + [el])[..|prefix|] == prefix;
  }

  /** Running the effect a second time removes nothing. */
  lemma RemoveDuplicatesIdempotent(doc: seq<Script>)
    ensures Deduplicated(Deduplicated(doc)) == Deduplicated(doc)
  {
    Dedup.KeepFirstIdempotent(doc, Selected, Content);
  }
}
