/** The static route table and the locale prefix rule of app/config/routesMap.ts. */
module RoutesMap {

  /** Route name to path: "about" is served at the root, the others at "/" + name. */
  const Routes: map<string, string> := map[
    "about" := "",
    "reviews" := "/reviews",
    "promotion" := "/promotion",
    "login" := "/login",
    "qap" := "/qap"
  ]

  /** The URL prefix of a locale: none for the default "ua", "/" + locale otherwise. */
  function LocalePrefix(locale: string): (r: string)
    ensures r == "" <==> locale == "ua"
    ensures locale != "ua" ==> r == "/" + locale
  {
    if locale == "ua" then "" else "/" + locale
  }

  /** The table has five routes; "about" maps to the empty path and every
      other route k to "/" + k. */
  lemma RoutesShape()
    ensures Routes.Keys == {"about", "reviews", "promotion", "login", "qap"}
    ensures |Routes| == 5
    ensures Routes["about"] == ""
    ensures forall k :: k in Routes && k != "about" ==> Routes[k] == "/" + k
  {
    assert Routes.Keys == {"about", "reviews", "promotion", "login", "qap"};
  }
}
