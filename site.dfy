/** Constants shared by every page of the site: its origin, its logo and the
    two locales it serves. */
module Site {

  const BaseUrl: string := "https://mfoxa.com.ua"
  const LogoUrl: string := "https://mfoxa.com.ua/logo.png"

  /** The two locales. `Ua` is the default one and carries no URL prefix. */
  datatype Lang = Ru | Ua

  /** The locale as it appears in URLs and props: "ru" or "ua". */
  function LangCode(lang: Lang): (code: string)
    ensures code == "ru" <==> lang == Ru
    ensures code == "ua" <==> lang == Ua
  {
    match lang
    case Ru => "ru"
    case Ua => "ua"
  }
}
