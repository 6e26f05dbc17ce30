/**
 * The session of the Research Log Manager window: the date being shown, the
 * log file whose text is in the editor, the theme, and the storage they work
 * on. The filesystem is abstract: a map from path to file content, a set of
 * directories, and the settings record. Widgets, the calendar grid and the
 * autosave timer are outside the model; their callbacks are the methods here.
 */
module LogManager {
  import opened Wrappers
  import opened Dates
  import opened LogPaths
  import opened Settings
  import opened TextFiles

  /** What the status bar last reported. */
  datatype Status = Ready | LoadedLog(date: Date) | Saved | SaveFailed

  /** Tk's `Text.get(1.0, END)`: the buffer followed by the newline the widget always keeps at its end. */
  function TextGet(buffer: string): string {
    buffer + "\n"
  }

  /** The files after `save_log`: the editor text written to the current file, if there is one and the write succeeds. */
  function AfterSave(files: map<string, string>, currentFile: Option<string>, editor: string, writeSucceeds: bool): map<string, string> {
    if currentFile.Some? && writeSucceeds then files[currentFile.value := TextGet(editor)] else files
  }

  /** `os.path.dirname` of a log's path, the directory `os.makedirs` is given: its month directory. */
  method ParentDir(root: string, ghost d: Date, path: string) returns (dir: string)
    requires ValidRoot(root) && ValidDate(d) && path == PathFor(root, d)
    ensures dir == MonthDir(root, d)
  {
    DirNameOfPathFor(root, d);
    dir := DirName(path);
  }

  class DailyLogManager {
    /** `app_data_dir`, the root of the month folders. */
    const appDataDir: string
    var currentDate: Date
    var currentFile: Option<string>
    var darkMode: bool
    /** The text held by the editor widget. */
    var editor: string
    var status: Status
    var files: map<string, string>
    var dirs: set<string>
    var settings: SettingsFile
    /** The date whose log is in the editor; `currentDate` may move away from it by month navigation. */
    ghost var loadedDate: Option<Date>

    ghost predicate Valid()
      reads this
    {
      && ValidRoot(appDataDir)
      && ValidDate(currentDate)
      && (currentFile.None? <==> loadedDate.None?)
      && (loadedDate.Some? ==>
            && ValidDate(loadedDate.value)
            && currentFile.value == PathFor(appDataDir, loadedDate.value)
            && MonthDir(appDataDir, loadedDate.value) in dirs)
    }

    /** `log_exists`: whether a file is stored at the date's path. */
    method LogExists(d: Date) returns (b: bool)
      requires Valid() && ValidDate(d)
      ensures b <==> appDataDir + "/" + MonthFolder(d) + "/" + FileName(d) in files
    {
      PathForLayout(appDataDir, d);
      b := PathFor(appDataDir, d) in files;
    }

    /** `__init__`: create the data directory, read the settings, then load today's log. */
    constructor (root: string, today: Date, files0: map<string, string>, dirs0: set<string>, settings0: SettingsFile)
      requires ValidRoot(root) && ValidDate(today)
      ensures Valid()
      ensures appDataDir == root && currentDate == today && loadedDate == Some(today)
      ensures currentFile == Some(PathFor(root, today))
      ensures darkMode == DarkModeSetting(settings0) && settings == settings0
      ensures files == files0 && dirs == dirs0 + {root, MonthDir(root, today)}
      ensures editor == if PathFor(root, today) in files0 then ReadText(files0[PathFor(root, today)]) else Template(today)
      ensures status == LoadedLog(today)
    {
      appDataDir := root;
      currentDate := today;
      currentFile := None;
      darkMode := true;
      editor := "";
      status := Ready;
      files := files0;
      dirs := dirs0;
      settings := settings0;
      loadedDate := None;
      new;
      if root !in dirs {
        dirs := dirs + {root};
      }
      LoadSettings();
      // no file is current yet, so the save that opens load_log does nothing
      LoadTodaysLog(today, true);
    }

    /**
     * `save_log`: with no current file nothing happens; otherwise the editor
     * text is written to the current file, and only that file, unless the
     * write fails, in which case only the status changes.
     */
    method SaveLog(writeSucceeds: bool)
      requires Valid()
      modifies this
      ensures Valid()
      ensures currentDate == old(currentDate) && currentFile == old(currentFile) && loadedDate == old(loadedDate)
      ensures editor == old(editor) && darkMode == old(darkMode) && settings == old(settings)
      ensures dirs == old(dirs)
      ensures files == AfterSave(old(files), currentFile, editor, writeSucceeds)
      ensures currentFile.None? ==> status == old(status)
      ensures currentFile.Some? ==> status == (if writeSucceeds then Saved else SaveFailed)
      ensures currentFile.Some? && writeSucceeds ==>
        PathFor(appDataDir, loadedDate.value) in files && files[currentFile.value] == TextGet(editor)
      ensures currentFile.Some? ==> files - {currentFile.value} == old(files) - {currentFile.value}
    {
      if currentFile.None? {
        return;
      }
      var content := TextGet(editor);
      var path := currentFile.value;
      // os.makedirs(..., exist_ok=True): the month directory is already there
      var dir := ParentDir(appDataDir, loadedDate.value, path);
      dirs := dirs + {dir};
      if writeSucceeds {
        files := files[path := content];
        status := Saved;
      } else {
        status := SaveFailed;
      }
    }

    /**
     * `load_log`: save the current log, switch to `d`, make sure its month
     * directory exists, and fill the editor with its stored text or, when it
     * has none, with the template, without writing a file.
     */
    method LoadLog(d: Date, writeSucceeds: bool)
      requires Valid() && ValidDate(d)
      modifies this
      ensures Valid()
      ensures currentDate == d && loadedDate == Some(d) && currentFile == Some(PathFor(appDataDir, d))
      ensures files == AfterSave(old(files), old(currentFile), old(editor), writeSucceeds)
      ensures dirs == old(dirs) + {MonthDir(appDataDir, d)}
      ensures editor == if PathFor(appDataDir, d) in files then ReadText(files[PathFor(appDataDir, d)]) else Template(d)
      ensures status == LoadedLog(d)
      ensures darkMode == old(darkMode) && settings == old(settings)
      // the text of the day left behind is on disk before the switch (when the write succeeds)
      ensures old(loadedDate).Some? && writeSucceeds ==>
        files[PathFor(appDataDir, old(loadedDate).value)] == TextGet(old(editor))
      // switching to another day does not create its log, and shows its stored text or the template
      ensures old(loadedDate) != Some(d) ==> (PathFor(appDataDir, d) in files <==> PathFor(appDataDir, d) in old(files))
      ensures old(loadedDate) != Some(d) && PathFor(appDataDir, d) in old(files) ==>
        editor == ReadText(old(files)[PathFor(appDataDir, d)])
      ensures old(loadedDate) != Some(d) && PathFor(appDataDir, d) !in old(files) ==> editor == Template(d)
    {
      ghost var path := PathFor(appDataDir, d);
      if loadedDate.Some? {
        PathForInjective(appDataDir, loadedDate.value, d);
      }
      // a save to another day's file leaves this day's entry as it was
      assert loadedDate != Some(d) ==> currentFile != Some(path);
      SaveLog(writeSucceeds);
      ShowLog(d);
    }

    /**
     * The rest of `load_log` once the save is done: switch to `d`, create its
     * month directory and show its stored text or the template. No file is
     * written.
     */
    method ShowLog(d: Date)
      requires Valid() && ValidDate(d)
      modifies this
      ensures Valid()
      ensures currentDate == d && loadedDate == Some(d) && currentFile == Some(PathFor(appDataDir, d))
      ensures files == old(files) && dirs == old(dirs) + {MonthDir(appDataDir, d)}
      ensures editor == if PathFor(appDataDir, d) in files then ReadText(files[PathFor(appDataDir, d)]) else Template(d)
      ensures status == LoadedLog(d)
      ensures darkMode == old(darkMode) && settings == old(settings)
    {
      currentDate := d;
      var path := PathFor(appDataDir, d);
      var dir := ParentDir(appDataDir, d, path);
      dirs := dirs + {dir};
      if path in files {
        editor := ReadText(files[path]);
      } else {
        editor := Template(d);
      }
      status := LoadedLog(d);
      currentFile := Some(path);
      loadedDate := Some(d);
    }

    /** `load_log_by_date`: a day of the displayed month; an invalid day raises before anything changes. */
    method LoadLogByDate(day: int, writeSucceeds: bool) returns (ok: bool)
      requires Valid()
      modifies this
      ensures Valid()
      ensures ok <==> 1 <= day <= DaysInMonth(old(currentDate).year, old(currentDate).month)
      ensures !ok ==> unchanged(this)
      ensures ok ==>
        var d := Date(old(currentDate).year, old(currentDate).month, day);
        && currentDate == d && loadedDate == Some(d) && currentFile == Some(PathFor(appDataDir, d))
        && files == AfterSave(old(files), old(currentFile), old(editor), writeSucceeds)
        && dirs == old(dirs) + {MonthDir(appDataDir, d)}
        && editor == (if PathFor(appDataDir, d) in files then ReadText(files[PathFor(appDataDir, d)]) else Template(d))
        && status == LoadedLog(d)
        && darkMode == old(darkMode) && settings == old(settings)
    {
      var selected := Date(currentDate.year, currentDate.month, day);
      ok := ValidDate(selected);
      if !ok {
        return;
      }
      LoadLog(selected, writeSucceeds);
    }

    /** `load_todays_log`, with the clock's date as a parameter. */
    method LoadTodaysLog(today: Date, writeSucceeds: bool)
      requires Valid() && ValidDate(today)
      modifies this
      ensures Valid()
      ensures currentDate == today && loadedDate == Some(today) && currentFile == Some(PathFor(appDataDir, today))
      ensures files == AfterSave(old(files), old(currentFile), old(editor), writeSucceeds)
      ensures dirs == old(dirs) + {MonthDir(appDataDir, today)}
      ensures editor == if PathFor(appDataDir, today) in files then ReadText(files[PathFor(appDataDir, today)]) else Template(today)
      ensures status == LoadedLog(today)
      ensures darkMode == old(darkMode) && settings == old(settings)
    {
      currentDate := today;
      LoadLog(today, writeSucceeds);
    }

    /**
     * `prev_month`: the last day of the previous month; from January of year 1
     * Python raises OverflowError and nothing changes. The log in the editor
     * stays current.
     */
    method PrevMonth() returns (ok: bool)
      requires Valid()
      modifies this`currentDate
      ensures Valid()
      ensures ok <==> !(old(currentDate).year == MinYear && old(currentDate).month == 1)
      ensures !ok ==> currentDate == old(currentDate)
      ensures ok ==>
        var y := if old(currentDate).month == 1 then old(currentDate).year - 1 else old(currentDate).year;
        var m := if old(currentDate).month == 1 then 12 else old(currentDate).month - 1;
        currentDate == Date(y, m, DaysInMonth(y, m))
    {
      PrevMonthIsLastDayOfPreviousMonth(currentDate);
      match PrevMonthDate(currentDate)
      case None =>
        ok := false;
      case Some(p) =>
        currentDate := p;
        ok := true;
    }

    /**
     * `next_month`: the first day of the next month; from December of year
     * 9999 Python raises OverflowError and nothing changes. The log in the
     * editor stays current.
     */
    method NextMonth() returns (ok: bool)
      requires Valid()
      modifies this`currentDate
      ensures Valid()
      ensures ok <==> !(old(currentDate).year == MaxYear && old(currentDate).month == 12)
      ensures !ok ==> currentDate == old(currentDate)
      ensures ok ==>
        var y := if old(currentDate).month == 12 then old(currentDate).year + 1 else old(currentDate).year;
        var m := if old(currentDate).month == 12 then 1 else old(currentDate).month + 1;
        currentDate == Date(y, m, 1)
    {
      NextMonthIsFirstOfNextMonth(currentDate);
      match NextMonthDate(currentDate)
      case None =>
        ok := false;
      case Some(n) =>
        currentDate := n;
        ok := true;
    }

    /** `toggle_theme`: flip the theme and persist it. */
    method ToggleTheme()
      modifies this`darkMode, this`settings
      ensures darkMode == !old(darkMode)
      ensures settings == SettingsFor(darkMode) && DarkModeSetting(settings) == darkMode
    {
      darkMode := !darkMode;
      SaveSettings();
      SettingsRoundTrip(darkMode);
    }

    /** `load_settings`: the stored theme, dark when the file is missing, unreadable or lacks the key. */
    method LoadSettings()
      modifies this`darkMode
      ensures darkMode == DarkModeSetting(settings)
      ensures settings.Missing? || settings.Unparseable? ==> darkMode
      ensures settings.Stored? && DarkModeKey !in settings.entries ==> darkMode
      ensures settings.Stored? && DarkModeKey in settings.entries ==> darkMode == settings.entries[DarkModeKey]
    {
      darkMode := DarkModeSetting(settings);
    }

    /** `save_settings`: replace the settings file with the current theme. */
    method SaveSettings()
      modifies this`settings
      ensures settings == SettingsFor(darkMode)
    {
      settings := SettingsFor(darkMode);
    }

    /** `on_closing`: flush the log and the settings before the window goes away. */
    method OnClosing(writeSucceeds: bool)
      requires Valid()
      modifies this
      ensures Valid()
      ensures files == AfterSave(old(files), old(currentFile), old(editor), writeSucceeds)
      ensures settings == SettingsFor(darkMode) && darkMode == old(darkMode)
      ensures currentDate == old(currentDate) && loadedDate == old(loadedDate)
      ensures currentFile == old(currentFile) && editor == old(editor) && dirs == old(dirs)
      ensures currentFile.None? ==> status == old(status)
      ensures currentFile.Some? ==> status == (if writeSucceeds then Saved else SaveFailed)
    {
      SaveLog(writeSucceeds);
      SaveSettings();
    }

    /** The user typing in the editor. */
    method Edit(text: string)
      requires Valid()
      modifies this`editor
      ensures Valid() && editor == text
    {
      editor := text;
    }
  }
}
