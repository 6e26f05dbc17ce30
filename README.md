# Research Log Manager: date-keyed log storage and session, in Dafny

This project models the logic inside `DailyLogManager`, the one class of the
Research Log Manager desktop journal (`src/daily_log_app.py`). The logic has
four parts:

- **Where a day's log lives.** A calendar date maps to
  `<app_data_dir>/<MonthName> <YYYY>/<DD>-<MM>-<YYYY>.txt`. Module `LogPaths`
  models the `strftime` formats `%B %Y`, `%d-%m-%Y` and `%A, %d %B %Y` in the
  C locale, and `os.path.join` / `os.path.dirname` on POSIX. It proves that
  file names parse back to their dates, that distinct dates never share a
  path, and that two dates share a month folder exactly when they share year
  and month.
- **Month navigation.** Module `Dates` models `datetime` dates in years
  1..9999, `replace(day=…)` and `+/- timedelta(days=n)`. Python defines that
  arithmetic by the proleptic ordinal, and `AddDaysIsOrdinalShift` proves the
  day-by-day model equal to it. `prev_month` (day 1, minus one day) lands on
  the last day of the previous month. The `next_month` trick (day 28, plus
  four days, then day 1) lands on the first day of the next month for every
  month length. At the ends of the supported range Python raises
  `OverflowError`; the model returns "no date".
- **The session.** Class `LogManager.DailyLogManager` holds `current_date`,
  `current_file`, the theme flag, the editor text, the status and an abstract
  filesystem: a map from path to content, a set of directories and the
  settings record. Its methods are the callbacks of the window:
  - `load_log` saves first and then switches days.
  - `save_log` does nothing without a current file.
  - `load_log_by_date`, `load_todays_log`, `prev_month` and `next_month` are
    the calendar's callbacks.
  - `toggle_theme`, `load_settings`, `save_settings` and `on_closing` handle
    the theme and shutdown.

  A ghost field `loadedDate` records whose log is in the editor. The object
  invariant ties `current_file` to that date's path, so month navigation can
  move `current_date` without redirecting the next save.
- **The theme setting.** Module `Settings`: missing or unreadable settings
  mean dark mode, and saving then loading gives back the saved value.
- **Reading a log back.** Module `TextFiles`: `open(path, 'r')` reads in
  text mode, where Python's universal newlines turn `"\r\n"` and a lone
  `"\r"` into `"\n"`. `ReadText` models this, and the editor shows
  `ReadText` of the stored content. Writing in text mode on POSIX leaves
  `"\n"` as it is, so a file holds exactly the string written to it.

Environment inputs are parameters:
- the clock's date is `today`;
- whether a file write succeeds is `writeSucceeds`;
- the initial filesystem is given to the constructor.

Tk's `Text.get(1.0, END)` returns the widget text followed by the newline the
widget always keeps. `TextGet` models this, so each save writes the editor
text plus `"\n"`.

Where the documented design and the code differ, the model follows the code:
- A read error or a directory-creation error is not recovered. `open` in
  `load_log` and `os.makedirs` in `load_log`/`save_log` sit outside any `try`
  (src/daily_log_app.py:241-246, 267), so these exceptions escape the
  callback.
- A failed save is not kept for a retry when switching days. `load_log` goes
  on after `save_log` reports the failure. It replaces the editor text and
  overwrites the error status with "Loaded log for …". `LoadLog`'s contract
  states this: on a failed write the files are unchanged and the editor shows
  the new day.
- Saving and reloading does not return the text byte for byte. The file
  holds the text followed by one newline, and the editor gets that content
  back as text mode reads it. For text without a carriage return that is the
  text plus one newline; a `"\r"` comes back as `"\n"`. Both facts are
  stated by `Scenarios.SwitchAwayAndBack`.

## Model

| member | source | states |
|---|---|---|
| `Dates.AddDays` | src/daily_log_app.py:307-313 | `d + timedelta(days=n)`, one day at a time; whenever it is defined the result is a valid date (the ordinal rule is `AddDaysIsOrdinalShift`) |
| `Dates.AddDaysForward` | src/daily_log_app.py:312 | adding k ≥ 0 days is defined exactly when `toordinal() + k` is at most 3652059, and then moves the ordinal up by k |
| `Dates.AddDaysBackward` | src/daily_log_app.py:308 | subtracting k ≥ 0 days is defined exactly when `toordinal() - k` is at least 1, and then moves the ordinal down by k |
| `Dates.AddDaysIsOrdinalShift` | src/daily_log_app.py:308-312 | `date + timedelta(days=n)` is defined exactly when `toordinal() + n` lies in 1..3652059, and then the result has that ordinal (Python's definition of date arithmetic and of its OverflowError) |
| `Dates.NextPrevInverse` | src/daily_log_app.py:308 | subtracting one day is the exact inverse of adding one day |
| `Dates.PrevMonthIsLastDayOfPreviousMonth` | src/daily_log_app.py:308 | `replace(day=1) - timedelta(days=1)` is the last day of the previous month, with January going to December of the year before; the day after it is the first of the original month; from January of year 1 it overflows |
| `Dates.NextMonthIsFirstOfNextMonth` | src/daily_log_app.py:312-313 | `(replace(day=28) + timedelta(days=4)).replace(day=1)` is day 1 of the next month for every month length and leap year, December going to January of the next year; only December 9999 overflows |
| `Dates.PrevMonthDate` | src/daily_log_app.py:308 | `prev_month`'s date is undefined (OverflowError) exactly in January of year 1, and is a valid date otherwise |
| `Dates.NextMonthDate` | src/daily_log_app.py:312-313 | `next_month`'s date, when defined, is a valid date on day 1 |
| `Dates.Weekday` | src/daily_log_app.py:248 | `date.weekday()`, the index of `%A`, is `(toordinal() + 6) % 7` and lies in 0..6 (0 = Monday) |
| `Dates.WithDay` | src/daily_log_app.py:312-313 | `replace(day=k)` succeeds exactly when k is a day of the month and then changes only the day |
| `Dates.WeekdayOfNextDay` | src/daily_log_app.py:248 | the weekday used for `%A` (0 = Monday) advances by one, modulo 7, from each day to the next |
| `Dates.OrdinalBounds` | src/daily_log_app.py:308-312 | every valid date has an ordinal in 1..`date.max.toordinal()` |
| `LogPaths.FileNameRoundTrip` | src/daily_log_app.py:212 | the file name `%d-%m-%Y.txt` of a valid date parses back to that date |
| `LogPaths.ParseFileNameExact` | src/daily_log_app.py:212 | every name the parser accepts is exactly the file name of the date it yields, so names and dates are in one-to-one correspondence |
| `LogPaths.FileNameInjective` | src/daily_log_app.py:212 | distinct valid dates have distinct file names |
| `LogPaths.MonthNameRoundTrip` | src/daily_log_app.py:211 | each `%B` month name reads back to its month number, so no two months share a name |
| `LogPaths.PathForInjective` | src/daily_log_app.py:211-213 | under any root, two valid dates share a log path if and only if they are the same date |
| `LogPaths.SameMonthDirIff` | src/daily_log_app.py:236-241 | two valid dates share a month directory if and only if they have the same year and month |
| `LogPaths.PathForLayout` | src/daily_log_app.py:236-241 | with the application's root, the path is `root/<Month YYYY>/<DD-MM-YYYY>.txt` and `os.path.dirname` of it is the month directory that `load_log` creates |
| `LogPaths.DirNameOfPathFor` | src/daily_log_app.py:241 | `os.path.dirname` of a log path is its month directory, the directory `load_log` and `save_log` pass to `os.makedirs` |
| `LogPaths.DirNameOfChild` | src/daily_log_app.py:241 | `os.path.dirname(a + "/" + b)` is `a` when `b` has no slash and `a` is non-empty without a trailing slash |
| `LogPaths.PathForExample` | src/daily_log_app.py:236-238 | the log of 5 March 2024 under root `R` is `R/March 2024/05-03-2024.txt` |
| `LogPaths.TemplateLayout` | src/daily_log_app.py:248 | for every valid date the default text is `# Research Log - `, the English name of the date's weekday, `, `, the day in two digits, the month name and the four-digit year, each after a space, then a blank line; the day and the year read back from it |
| `LogPaths.TemplateExample` | src/daily_log_app.py:248 | the default text for 5 March 2024 is `# Research Log - Tuesday, 05 March 2024` followed by two newlines |
| `TextFiles.ReadText` | src/daily_log_app.py:245-246 | a text-mode read never yields a carriage return and never lengthens the content |
| `TextFiles.ReadTextOfPlainText` | src/daily_log_app.py:245-246 | content without a carriage return is read back unchanged |
| `TextFiles.ReadTextIdempotent` | src/daily_log_app.py:245-246 | reading text that was already read changes nothing |
| `TextFiles.ReadTextExample` | src/daily_log_app.py:245-246 | `"a\r\nb"` and `"a\rb"` both read as `"a\nb"` |
| `Settings.SettingsRoundTrip` | src/daily_log_app.py:316-333 | the record `save_settings` writes loads back to the same theme |
| `LogManager.ParentDir` | src/daily_log_app.py:241 | `os.path.dirname` of the path of a date's log is that date's month directory |
| `LogManager.DailyLogManager.LogExists` | src/daily_log_app.py:210-214 | `log_exists(d)` returns true exactly when a file is stored at `root/<Month YYYY>/<DD-MM-YYYY>.txt`, the path `load_log` uses |
| `LogManager.DailyLogManager.constructor` | src/daily_log_app.py:13-40 | start-up creates the data directory, takes the theme from the settings, and loads today's log (its stored text as text mode reads it, or the template); no file is written |
| `LogManager.DailyLogManager.SaveLog` | src/daily_log_app.py:260-278 | with no current file nothing changes; otherwise the current file holds the editor text and `log_exists` holds for its date; no other file changes; on a write failure the files are unchanged and only the status changes; no directory is added, because the month directory was created when the log was loaded |
| `LogManager.DailyLogManager.LoadLog` | src/daily_log_app.py:225-258 | first the previous day's text goes to the old current file; then `current_date` and `current_file` move to the new date; its month directory exists; the editor shows the stored content as text mode reads it, or else the template; the status reports the load; a day without a log still has none afterwards |
| `LogManager.DailyLogManager.ShowLog` | src/daily_log_app.py:229-258 | the part of `load_log` after the save: the date and current file move to the new day, its month directory is added, the editor shows its stored content as read or the template, and no file changes |
| `LogManager.DailyLogManager.LoadLogByDate` | src/daily_log_app.py:216-218 | a day of the displayed month is loaded as `load_log` does: the previous text is saved, the month directory is added, the editor shows the day's log or the template, the status reports the load, and the theme and settings stay; a day outside the month raises and changes nothing |
| `LogManager.DailyLogManager.LoadTodaysLog` | src/daily_log_app.py:220-223 | today becomes the current date and its log is loaded after the previous one is saved |
| `LogManager.DailyLogManager.PrevMonth` | src/daily_log_app.py:307-309 | the displayed date becomes the last day of the previous month (no change on overflow), and the current file is untouched |
| `LogManager.DailyLogManager.NextMonth` | src/daily_log_app.py:311-314 | the displayed date becomes the first day of the next month (no change on overflow), and the current file is untouched |
| `LogManager.DailyLogManager.ToggleTheme` | src/daily_log_app.py:295-305 | the theme flag is negated and the settings now hold the new value |
| `LogManager.DailyLogManager.LoadSettings` | src/daily_log_app.py:316-325 | dark mode is the stored `dark_mode` value, and true when the file is missing, unreadable or lacks the key |
| `LogManager.DailyLogManager.SaveSettings` | src/daily_log_app.py:327-333 | the settings record becomes `{dark_mode: <current flag>}` |
| `LogManager.DailyLogManager.OnClosing` | src/daily_log_app.py:335-338 | closing flushes the editor text to the current file (if the write succeeds) and writes the settings; the status reports the save as `save_log` does, and the date, current file and editor stay |
| `LogManager.DailyLogManager.Edit` | src/daily_log_app.py:127-131 | typing replaces the text of the editor widget and nothing else |
| `Scenarios.SwitchAwayAndBack` | src/daily_log_app.py:225-275 | text typed for a day, after switching away and back, is on disk followed by one newline, and the editor shows that content as text mode reads it, which is exactly the text plus one newline when the text has no carriage return |
| `Scenarios.FirstVisitThenSave` | src/daily_log_app.py:241-272 | a never-saved day shows the template and has no log until the first save, which creates it |
| `Scenarios.ToggleTwice` | src/daily_log_app.py:295-305 | toggling the theme twice restores it, and the stored setting agrees |

## Left out

- Widget construction, styling and layout (src/daily_log_app.py:42-155): presentation only.
- The calendar grid of `build_calendar` (src/daily_log_app.py:157-208), including the "today" highlight and the per-day `log_exists` marking: presentation on top of the `calendar` library. The calls to it after a save or a month change have no effect on the modelled state.
- The 30-second autosave timer (src/daily_log_app.py:280-285): event-loop scheduling. Each tick is one `SaveLog` call.
- `apply_format` (src/daily_log_app.py:287-293): it inserts fixed strings at the cursor. `Edit` stands for any change to the editor text.
- `datetime.now()`: the date is the parameter `today`. The time of day that `datetime` values carry, the `Saved: HH:MM:SS` timestamp and the exact status and date-label texts are not modelled. `Status` records only which kind of message was shown.
- Filesystem failures other than a failed write: errors from `os.makedirs`, from opening or reading a log, or from writing the settings file. The source lets all of these escape as exceptions. A directory or unreadable file sitting at a log path is not modelled either.
- `os.makedirs` also creates missing ancestor directories. The model records only the directory it is asked for.
- `LogManager.DailyLogManager.SaveLog`: `save_log` calls `os.makedirs` again (src/daily_log_app.py:267) so that it survives a month folder removed by another program. Nothing outside the program changes the data directory in this model, so that folder is always present and the call adds nothing.
- Text-mode writes on platforms whose line separator is not `"\n"` (Windows writes `"\r\n"`): writes are modelled as on POSIX. Invalid UTF-8 in a stored log, which makes the read raise, is not modelled: file contents are strings.
- A write that fails after `open(…, 'w')` has already truncated the file: a failed write leaves the file map unchanged.
- The JSON text of the settings file. A `dark_mode` value that is not a boolean, or a file that parses to something other than an object, is not modelled either.
- Locale-dependent month and weekday names: the English (C locale) names are fixed.
- `LogPaths.Pad4`: `%Y` is modelled as four zero-padded digits. Some C libraries print years below 1000 without padding.
- Tk's editor beyond its text (undo history, cursor, tags).
