/** The expandable text block (app/components/DetailsText.tsx): the plain
    text of its HTML decides whether a "show more" toggle is offered, and the
    toggle flips between the clamped and the full view. */
module DetailsText {
  import opened Js

  /** `html ?? ""`. */
  function FullHtml(html: Option<string>): (r: string)
    ensures html.None? ==> r == ""
    ensures html.Some? ==> r == html.value
  {
    match html
    case None => ""
    case Some(h) => h
  }

  /** What follows the tag that a "<" opened: the text after the next ">",
      or nothing when no ">" follows. */
  function AfterTag(t: string): (r: string)
    ensures |r| <= |t|
    ensures '>' in t ==> r == t[IndexOf(t, '>') + 1..]
    ensures '>' !in t ==> r == ""
  {
    if '>' in t then t[IndexOf(t, '>') + 1..] else ""
  }

  /** `html.replace(/<[^>]*>?/gm, "")`: every "<" is removed together with
      the text up to and including the next ">", or up to the end. */
  function StripTags(s: string): (r: string)
    ensures '<' !in r
    ensures |r| <= |s|
    decreases |s|
  {
    if s == "" then ""
    else if s[0] == '<' then StripTags(AfterTag(s[1..]))
    else [s[0]] + StripTags(s[1..])
  }

  /** Text without "<" has no tags and is left as it is; in particular
      stripping twice is stripping once. */
  lemma {:induction false} StripTagsPlain(s: string)
    requires '<' !in s
    ensures StripTags(s) == s
    decreases |s|
  {
    if s != "" {
      assert s[0] in s;
      StripTagsPlain(s[1..]);
      assert s == [s[0]] + s[1..];
    }
  }

  lemma StripTagsIdempotent(s: string)
    ensures StripTags(StripTags(s)) == StripTags(s)
  {
    StripTagsPlain(StripTags(s));
  }

  /** A tag in front of some text goes and the text stays; an unclosed tag
      takes the rest of the string with it. */
  lemma StripTagsExample()
    ensures StripTags("<i>x") == "x"
    ensures StripTags("x<i") == "x"
  {
    var t := "i>x";
    assert t[0] != '>' && t[1] == '>';
    assert IndexOf(t, '>') == 1;
    assert AfterTag(t) == "x";
    var u := "x<i";
    assert u[1..] == "<i" && "<i"[1..] == "i";
    assert '>' !in "i";
  }

  const PreviewCharCount: nat := 300

  /** The text is long enough to be clamped behind the toggle; `.length`
      counts UTF-16 code units. */
  predicate NeedsTruncation(fullHtml: string)
  {
    Utf16Length(StripTags(fullHtml)) > PreviewCharCount
  }

  /** `truncateHtml` up to its DOM walk: on the server, or when the text fits,
      the HTML is returned unchanged; `None` stands for the walk. */
  function TruncateHtmlShortcut(htmlString: string, maxLength: nat, onServer: bool): (r: Option<string>)
    ensures r.Some? <==> onServer || Utf16Length(StripTags(htmlString)) <= maxLength
    ensures r.Some? ==> r.value == htmlString
  {
    if onServer then Some(htmlString)
    else if Utf16Length(StripTags(htmlString)) <= maxLength then Some(htmlString)
    else None
  }

  /** `true || !needsTruncation ? fullHtml : truncateHtml(fullHtml, 300)`,
      with the DOM walk passed in: the guard is always true, so the full HTML
      is displayed whatever its length and whatever the walk would give. */
  function DisplayedContent(fullHtml: string, truncateHtml: (string, nat) -> string): (r: string)
    ensures r == fullHtml
  {
    if true || !NeedsTruncation(fullHtml) then fullHtml else truncateHtml(fullHtml, PreviewCharCount)
  }

  /** The component's state. */
  class DetailsTextView {
    const fullHtml: string
    var isExpanded: bool
    var shouldTruncate: bool

    constructor(html: Option<string>)
      ensures fullHtml == FullHtml(html)
      ensures !isExpanded && !shouldTruncate
    {
      fullHtml := FullHtml(html);
      isExpanded := false;
      shouldTruncate := false;
    }

    /** `toggleExpanded`: flips the view, so two toggles restore it. */
    method ToggleExpanded()
      modifies this
      ensures isExpanded == !old(isExpanded)
      ensures shouldTruncate == old(shouldTruncate)
    {
      isExpanded := !isExpanded;
    }

    /** The effect that shows the toggle exactly when the text needs it. */
    method SyncShouldTruncate()
      modifies this
      ensures shouldTruncate <==> Utf16Length(StripTags(fullHtml)) > 300
      ensures shouldTruncate ==> |StripTags(fullHtml)| > 150
      ensures |StripTags(fullHtml)| > 300 ==> shouldTruncate
      ensures isExpanded == old(isExpanded)
    {
      shouldTruncate := NeedsTruncation(fullHtml);
    }
  }
}
