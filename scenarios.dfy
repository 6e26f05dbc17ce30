/**
 * Clients of the session that follow the behaviour a user sees, proved from
 * the method contracts alone.
 */
module Scenarios {
  import opened Wrappers
  import opened Dates
  import opened LogPaths
  import opened Settings
  import opened LogManager
  import opened TextFiles

  /**
   * Type into a day, go to another day and come back: the file holds the
   * text followed by the newline the editor widget adds on every save, and
   * the editor shows that file as text mode reads it back, which is exactly
   * what was saved when the text has no carriage return.
   */
  method SwitchAwayAndBack(m: DailyLogManager, d: Date, other: Date, text: string)
    requires m.Valid() && ValidDate(d) && ValidDate(other) && d != other
    modifies m
    ensures m.Valid() && m.loadedDate == Some(d)
    ensures PathFor(m.appDataDir, d) in m.files && m.files[PathFor(m.appDataDir, d)] == text + "\n"
    ensures m.editor == ReadText(text + "\n")
    ensures '\r' !in text ==> m.editor == text + "\n"
  {
    var saved := text + "\n";
    m.LoadLog(d, true);
    m.Edit(text);
    m.LoadLog(other, true);
    assert m.files[PathFor(m.appDataDir, d)] == saved;
    // coming back saves the other day's file, which is not this day's
    PathForInjective(m.appDataDir, other, d);
    m.LoadLog(d, true);
    assert m.files[PathFor(m.appDataDir, d)] == saved;
    assert m.editor == ReadText(saved);
    if '\r' !in text {
      assert '\r' !in saved;
      ReadTextOfPlainText(saved);
    }
  }

  /** A day never saved shows the template and has no log; the first save creates it. */
  method FirstVisitThenSave(m: DailyLogManager, d: Date)
    requires m.Valid() && ValidDate(d)
    requires m.loadedDate != Some(d) && PathFor(m.appDataDir, d) !in m.files
    modifies m
    ensures m.Valid() && PathFor(m.appDataDir, d) in m.files
    ensures m.files[PathFor(m.appDataDir, d)] == Template(d) + "\n"
  {
    m.LoadLog(d, true);
    assert m.editor == Template(d) && PathFor(m.appDataDir, d) !in m.files;
    m.SaveLog(true);
  }

  /** Toggling the theme twice restores it, and the stored setting agrees. */
  method ToggleTwice(m: DailyLogManager)
    modifies m
    ensures m.darkMode == old(m.darkMode)
    ensures DarkModeSetting(m.settings) == m.darkMode
  {
    m.ToggleTheme();
    m.ToggleTheme();
  }
}
