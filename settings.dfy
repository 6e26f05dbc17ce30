/**
 * The one-key settings record `{"dark_mode": bool}` kept next to the logs.
 * Its JSON text is not modelled: the file is absent, unreadable, or holds a
 * parsed object.
 */
module Settings {
  datatype SettingsFile = Missing | Unparseable | Stored(entries: map<string, bool>)

  const DarkModeKey: string := "dark_mode"

  /** `settings.get('dark_mode', True)` after `load_settings` read the file, or `{}` when it could not. */
  function DarkModeSetting(f: SettingsFile): bool {
    match f
    case Stored(entries) => if DarkModeKey in entries then entries[DarkModeKey] else true
    case _ => true
  }

  /** What `save_settings` writes: the whole file is replaced by the one key. */
  function SettingsFor(dark: bool): SettingsFile {
    Stored(map[DarkModeKey := dark])
  }

  /** Saving the theme and loading it back gives the same theme. */
  lemma SettingsRoundTrip(dark: bool)
    ensures DarkModeSetting(SettingsFor(dark)) == dark
  {
  }
}
