/** Site settings as the settings service delivers them: a group of named
    text values, of which a page reads a few. */
module Settings {

  /** `getAllSettings?.settings`; an absent group is the empty map. */
  type SettingsGroup = map<string, string>

  /** `getAllSettings?.settings.<name>`, with "" for a missing value. */
  function Setting(settings: SettingsGroup, name: string): (v: string)
    ensures name !in settings ==> v == ""
    ensures name in settings ==> v == settings[name]
  {
    if name in settings then settings[name] else ""
  }
}
