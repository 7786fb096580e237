/** The request-path rule of middleware.ts: unprefixed page paths are
    rewritten internally to the default "ua" locale; everything else goes to
    the locale-negotiation middleware. */
module Middleware {
  import opened Js

  datatype Routing = Rewrite(target: string) | Delegate

  /** `\w` without the `u` flag: ASCII letters, digits and underscore. */
  predicate IsWordChar(c: char) {
    ('a' <= c <= 'z') || ('A' <= c <= 'Z') || ('0' <= c <= '9') || c == '_'
  }

  /** The length of the run of word characters at the end of `s`. */
  function TrailingWordChars(s: string): (n: nat)
    ensures n <= |s|
    ensures forall j :: |s| - n <= j < |s| ==> IsWordChar(s[j])
    ensures n < |s| ==> !IsWordChar(s[|s| - n - 1])
  {
    if s != "" && IsWordChar(s[|s| - 1]) then 1 + TrailingWordChars(s[..|s| - 1]) else 0
  }

  /** The test `/\.[\w]+$/`: a dot followed by one or more word characters
      at the end of the path. */
  predicate HasFileExtension(path: string) {
    var n := TrailingWordChars(path);
    1 <= n < |path| && path[|path| - n - 1] == '.'
  }

  /** `HasFileExtension` is exactly the regular expression's meaning: some dot
      is followed only by word characters, at least one of them. */
  lemma ExtensionMatchesPattern(path: string)
    ensures HasFileExtension(path) <==>
      exists k :: 0 <= k < |path| - 1 && path[k] == '.' &&
        forall j :: k < j < |path| ==> IsWordChar(path[j])
  {
    var n := TrailingWordChars(path);
    if HasFileExtension(path) {
      var k := |path| - n - 1;
      assert 0 <= k < |path| - 1 && path[k] == '.';
    }
    if k :| 0 <= k < |path| - 1 && path[k] == '.' && forall j :: k < j < |path| ==> IsWordChar(path[j]) {
      assert !IsWordChar(path[k]);
      assert n == |path| - k - 1;
    }
  }

  function Route(path: string): (r: Routing)
    ensures r.Rewrite? <==>
      && !StartsWith(path, "/ru") && !StartsWith(path, "/ua")
      && !StartsWith(path, "/api") && !StartsWith(path, "/_next")
      && !HasFileExtension(path)
    ensures r.Rewrite? ==> r.target == "/ua" + path
  {
    if && !StartsWith(path, "/ru") && !StartsWith(path, "/ua")
       && !StartsWith(path, "/api") && !StartsWith(path, "/_next")
       && !HasFileExtension(path)
    then Rewrite("/ua" + path)
    else Delegate
  }

  /** A rewritten path starts with "/ua", so routing it again delegates. */
  lemma RouteIdempotent(path: string)
    ensures Route(path).Rewrite? ==> Route(Route(path).target) == Delegate
  {
    var t := "/ua" + path;
    assert t[..3] == "/ua";
  }

  /** The prefix test is on characters, not on path segments: "/rules" and
      "/uarticle" are delegated, like API calls and locale-prefixed paths. */
  lemma PrefixExamples()
    ensures Route("/rules") == Delegate
    ensures Route("/uarticle") == Delegate
    ensures Route("/api/x") == Delegate
    ensures Route("/ru/contacts") == Delegate
  {
    assert "/rules"[..3] == "/ru";
    assert "/uarticle"[..3] == "/ua";
    assert "/api/x"[..4] == "/api";
    assert "/ru/contacts"[..3] == "/ru";
  }

  /** A file such as "/favicon.ico" is delegated. */
  lemma FileExample()
    ensures Route("/favicon.ico") == Delegate
  {
    var p := "/favicon.ico";
    assert p[8] == '.' && IsWordChar(p[9]) && IsWordChar(p[10]) && IsWordChar(p[11]);
    assert TrailingWordChars(p) == 3;
  }

  /** A page path without a locale is rewritten under "/ua". */
  lemma PageExample()
    ensures Route("/contacts") == Rewrite("/ua/contacts")
  {
    var p := "/contacts";
    assert !IsWordChar(p[0]);
    assert forall j :: 1 <= j < 9 ==> IsWordChar(p[j]);
    assert TrailingWordChars(p) == 8;
  }
}
