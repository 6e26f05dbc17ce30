/**
 * Where a day's log lives and what a new log starts with.
 *
 * A date maps to `<root>/<MonthName> <YYYY>/<DD>-<MM>-<YYYY>.txt`, the
 * `strftime` formats `%B %Y` and `%d-%m-%Y` in the C locale joined with
 * `os.path.join`; the editor's default text uses `%A, %d %B %Y`.
 */
module LogPaths {
  import opened Wrappers
  import opened Dates

  // ---------------------------------------------------------------------------
  // Digits: `%d` and `%m` are two-digit, `%Y` four-digit, all zero-padded

  function DigitChar(n: int): char
    requires 0 <= n < 10
  {
    (n + '0' as int) as char
  }

  predicate IsDigit(c: char) {
    '0' <= c <= '9'
  }

  function DigitValue(c: char): int
    requires IsDigit(c)
  {
    c as int - '0' as int
  }

  predicate AllDigits(s: string) {
    forall i :: 0 <= i < |s| ==> IsDigit(s[i])
  }

  function Pad2(n: int): string
    requires 0 <= n < 100
  {
    [DigitChar(n / 10), DigitChar(n % 10)]
  }

  function Pad4(n: int): string
    requires 0 <= n < 10000
  {
    [DigitChar(n / 1000), DigitChar(n / 100 % 10), DigitChar(n / 10 % 10), DigitChar(n % 10)]
  }

  function Value2(s: string): int
    requires |s| == 2 && AllDigits(s)
  {
    DigitValue(s[0]) * 10 + DigitValue(s[1])
  }

  function Value4(s: string): int
    requires |s| == 4 && AllDigits(s)
  {
    DigitValue(s[0]) * 1000 + DigitValue(s[1]) * 100 + DigitValue(s[2]) * 10 + DigitValue(s[3])
  }

  lemma DigitCharValue(n: int)
    requires 0 <= n < 10
    ensures IsDigit(DigitChar(n)) && DigitValue(DigitChar(n)) == n
  {
  }

  /** Two-digit fields are a bijection between 0 .. 99 and two-digit strings. */
  lemma Pad2RoundTrip(n: int)
    requires 0 <= n < 100
    ensures AllDigits(Pad2(n)) && Value2(Pad2(n)) == n
  {
    DigitCharValue(n / 10);
    DigitCharValue(n % 10);
  }

  lemma Pad2Canonical(s: string)
    requires |s| == 2 && AllDigits(s)
    ensures 0 <= Value2(s) < 100 && Pad2(Value2(s)) == s
  {
    var v := Value2(s);
    assert v / 10 == DigitValue(s[0]) && v % 10 == DigitValue(s[1]);
  }

  /** Four-digit fields are a bijection between 0 .. 9999 and four-digit strings. */
  lemma Pad4RoundTrip(n: int)
    requires 0 <= n < 10000
    ensures AllDigits(Pad4(n)) && Value4(Pad4(n)) == n
  {
    var a, b, c, e := n / 1000, n / 100 % 10, n / 10 % 10, n % 10;
    NumberOfDigits(n);
    DigitCharValue(a);
    DigitCharValue(b);
    DigitCharValue(c);
    DigitCharValue(e);
  }

  lemma NumberOfDigits(n: int)
    requires 0 <= n < 10000
    ensures 0 <= n / 1000 < 10
    ensures n == (n / 1000) * 1000 + (n / 100 % 10) * 100 + (n / 10 % 10) * 10 + n % 10
  {
    assert n / 100 == (n / 1000) * 10 + n / 100 % 10;
    assert n / 10 == (n / 100) * 10 + n / 10 % 10;
  }

  lemma Pad4Canonical(s: string)
    requires |s| == 4 && AllDigits(s)
    ensures 0 <= Value4(s) < 10000 && Pad4(Value4(s)) == s
  {
    var a, b, c, e := DigitValue(s[0]), DigitValue(s[1]), DigitValue(s[2]), DigitValue(s[3]);
    DigitsOf(a, b, c, e);
  }

  lemma DigitsOf(a: int, b: int, c: int, e: int)
    requires 0 <= a < 10 && 0 <= b < 10 && 0 <= c < 10 && 0 <= e < 10
    ensures var v := a * 1000 + b * 100 + c * 10 + e;
      0 <= v < 10000 && v / 1000 == a && v / 100 % 10 == b && v / 10 % 10 == c && v % 10 == e
  {
    var v := a * 1000 + b * 100 + c * 10 + e;
    assert v / 10 == a * 100 + b * 10 + c;
    assert v / 100 == a * 10 + b;
  }

  // ---------------------------------------------------------------------------
  // English names (`%B` and `%A` in the C locale)

  const MonthNames: seq<string> := ["January", "February", "March", "April", "May", "June",
    "July", "August", "September", "October", "November", "December"]

  const WeekdayNames: seq<string> := ["Monday", "Tuesday", "Wednesday", "Thursday", "Friday",
    "Saturday", "Sunday"]

  function MonthName(m: int): string
    requires 1 <= m <= 12
  {
    MonthNames[m - 1]
  }

  function WeekdayName(w: int): string
    requires 0 <= w < 7
  {
    WeekdayNames[w]
  }

  /** The month number whose name is `name`, searching from month `m` on. */
  function MonthNumberFrom(name: string, m: int): (r: Option<int>)
    requires 1 <= m <= 13
    ensures r.Some? ==> m <= r.value <= 12 && MonthName(r.value) == name
    decreases 13 - m
  {
    if m == 13 then None
    else if MonthNames[m - 1] == name then Some(m)
    else MonthNumberFrom(name, m + 1)
  }

  /** Month names read back to their numbers, so no two months share a name. */
  lemma MonthNameRoundTrip(m: int)
    requires 1 <= m <= 12
    ensures MonthNumberFrom(MonthName(m), 1) == Some(m)
  {
    assert forall i, j :: 0 <= i < j < 12 ==> |MonthNames[i]| != |MonthNames[j]| || MonthNames[i][0] != MonthNames[j][0] || MonthNames[i][1] != MonthNames[j][1] || MonthNames[i][2] != MonthNames[j][2];
  }

  // ---------------------------------------------------------------------------
  // The two path components

  /** `date.strftime("%B %Y")`. */
  function MonthFolder(d: Date): string
    requires ValidDate(d)
  {
    MonthName(d.month) + " " + Pad4(d.year)
  }

  /** `date.strftime("%d-%m-%Y") + ".txt"`. */
  function FileName(d: Date): string
    requires ValidDate(d)
  {
    Pad2(d.day) + "-" + Pad2(d.month) + "-" + Pad4(d.year) + ".txt"
  }

  /** Reads a log file name back to its date; None for any other name. */
  function ParseFileName(s: string): (r: Option<Date>)
    ensures r.Some? ==> ValidDate(r.value)
  {
    if |s| == 14 && s[2] == '-' && s[5] == '-' && s[10..] == ".txt"
       && AllDigits(s[..2]) && AllDigits(s[3..5]) && AllDigits(s[6..10])
    then
      var d := Date(Value4(s[6..10]), Value2(s[3..5]), Value2(s[..2]));
      if ValidDate(d) then Some(d) else None
    else None
  }

  lemma FileNameShape(d: Date)
    requires ValidDate(d)
    ensures |FileName(d)| == 14 && '/' !in FileName(d)
  {
  }

  /** A log file name records its date: parsing it gives the date back. */
  lemma FileNameRoundTrip(d: Date)
    requires ValidDate(d)
    ensures ParseFileName(FileName(d)) == Some(d)
  {
    var s := FileName(d);
    Pad2RoundTrip(d.day);
    Pad2RoundTrip(d.month);
    Pad4RoundTrip(d.year);
    assert s[..2] == Pad2(d.day);
    assert s[3..5] == Pad2(d.month);
    assert s[6..10] == Pad4(d.year);
    assert s[10..] == ".txt";
  }

  /** Every name the parser accepts is the file name of the date it yields. */
  lemma ParseFileNameExact(s: string)
    requires ParseFileName(s).Some?
    ensures FileName(ParseFileName(s).value) == s
  {
    var d := ParseFileName(s).value;
    Pad2Canonical(s[..2]);
    Pad2Canonical(s[3..5]);
    Pad4Canonical(s[6..10]);
    assert s == s[..2] + "-" + s[3..5] + "-" + s[6..10] + s[10..];
  }

  /** Distinct dates have distinct file names. */
  lemma FileNameInjective(d1: Date, d2: Date)
    requires ValidDate(d1) && ValidDate(d2) && FileName(d1) == FileName(d2)
    ensures d1 == d2
  {
    FileNameRoundTrip(d1);
    FileNameRoundTrip(d2);
  }

  // ---------------------------------------------------------------------------
  // `os.path.join` and `os.path.dirname` (POSIX)

  function Join(a: string, b: string): string {
    if |b| > 0 && b[0] == '/' then b
    else if a == [] || a[|a| - 1] == '/' then a + b
    else a + "/" + b
  }

  /** Index just after the last '/', or 0 when there is none (`p.rfind('/') + 1`). */
  function AfterLastSlash(p: string): (i: nat)
    ensures i <= |p|
    ensures i > 0 ==> p[i - 1] == '/'
  {
    if p == [] then 0
    else if p[|p| - 1] == '/' then |p|
    else AfterLastSlash(p[..|p| - 1])
  }

  function StripTrailingSlashes(s: string): string {
    if s != [] && s[|s| - 1] == '/' then StripTrailingSlashes(s[..|s| - 1]) else s
  }

  predicate AllSlashes(s: string) {
    forall i :: 0 <= i < |s| ==> s[i] == '/'
  }

  function DirName(p: string): string {
    var head := p[..AfterLastSlash(p)];
    if head != [] && !AllSlashes(head) then StripTrailingSlashes(head) else head
  }

  lemma {:induction false} AfterLastSlashSkips(a: string, b: string)
    requires '/' !in b
    ensures AfterLastSlash(a + b) == AfterLastSlash(a)
    decreases |b|
  {
    if b == [] {
      assert a + b == a;
    } else {
      var b' := b[..|b| - 1];
      assert (a + b)[|a + b| - 1] == b[|b| - 1];
      assert b[|b| - 1] in b;
      assert (a + b)[..|a + b| - 1] == a + b';
      assert '/' !in b' by { assert forall c :: c in b' ==> c in b; }
      AfterLastSlashSkips(a, b');
    }
  }

  /** The parent of `a/b` is `a` when `b` has no slash and `a` does not end in one. */
  lemma DirNameOfChild(a: string, b: string)
    requires a != [] && a[|a| - 1] != '/' && '/' !in b
    ensures DirName(a + "/" + b) == a
  {
    var a' := a + "/";
    AfterLastSlashSkips(a', b);
    assert AfterLastSlash(a') == |a'|;
    var p := a' + b;
    assert p[..|a'|] == a';
    assert !AllSlashes(a') by { assert a'[|a| - 1] != '/'; }
    assert a'[..|a|] == a;
    assert StripTrailingSlashes(a') == StripTrailingSlashes(a);
  }

  // ---------------------------------------------------------------------------
  // The path of a day's log

  /** The application data directory as the program computes it: non-empty, no trailing '/'. */
  predicate ValidRoot(root: string) {
    root != [] && root[|root| - 1] != '/'
  }

  /** The month directory `os.path.join(app_data_dir, month_folder)`. */
  function MonthDir(root: string, d: Date): string
    requires ValidDate(d)
  {
    Join(root, MonthFolder(d))
  }

  /** `os.path.join(app_data_dir, month_folder, filename)`, shared by `log_exists` and `load_log`. */
  function PathFor(root: string, d: Date): string
    requires ValidDate(d)
  {
    Join(MonthDir(root, d), FileName(d))
  }

  lemma MonthFolderShape(d: Date)
    requires ValidDate(d)
    ensures |MonthFolder(d)| >= 5 && '/' !in MonthFolder(d)
    ensures MonthFolder(d)[0] != '/' && MonthFolder(d)[|MonthFolder(d)| - 1] != '/'
  {
    assert forall i :: 0 <= i < 12 ==> |MonthNames[i]| >= 3 && '/' !in MonthNames[i];
  }

  /** The concrete layout `<root>/<MonthName YYYY>/<DD-MM-YYYY>.txt`, and the log's parent directory. */
  lemma PathForLayout(root: string, d: Date)
    requires ValidRoot(root) && ValidDate(d)
    ensures MonthDir(root, d) == root + "/" + MonthFolder(d)
    ensures PathFor(root, d) == root + "/" + MonthFolder(d) + "/" + FileName(d)
    ensures DirName(PathFor(root, d)) == MonthDir(root, d)
  {
    MonthFolderShape(d);
    FileNameShape(d);
    var dir := root + "/" + MonthFolder(d);
    assert dir[|dir| - 1] == MonthFolder(d)[|MonthFolder(d)| - 1];
    DirNameOfChild(dir, FileName(d));
  }

  /** The directory of a log file is its month directory, the one `load_log` creates. */
  lemma DirNameOfPathFor(root: string, d: Date)
    requires ValidRoot(root) && ValidDate(d)
    ensures DirName(PathFor(root, d)) == MonthDir(root, d)
  {
    PathForLayout(root, d);
  }

  /** Joining a relative component keeps it as the suffix of the result. */
  lemma JoinEndsWith(a: string, b: string)
    requires b != [] && b[0] != '/'
    ensures var j := Join(a, b); |j| >= |b| && j[|j| - |b|..] == b
  {
  }

  /** Two valid dates share a log path exactly when they are the same date, whatever the root. */
  lemma PathForInjective(root: string, d1: Date, d2: Date)
    requires ValidDate(d1) && ValidDate(d2)
    ensures PathFor(root, d1) == PathFor(root, d2) <==> d1 == d2
  {
    if PathFor(root, d1) == PathFor(root, d2) {
      FileNameShape(d1);
      FileNameShape(d2);
      JoinEndsWith(MonthDir(root, d1), FileName(d1));
      JoinEndsWith(MonthDir(root, d2), FileName(d2));
      FileNameInjective(d1, d2);
    }
  }

  /** Joining the same directory with two relative names gives equal paths only for equal names. */
  lemma JoinCancels(a: string, b1: string, b2: string)
    requires b1 != [] && b1[0] != '/' && b2 != [] && b2[0] != '/'
    requires Join(a, b1) == Join(a, b2)
    ensures b1 == b2
  {
    var pre := if a == [] || a[|a| - 1] == '/' then a else a + "/";
    assert Join(a, b1) == pre + b1 && Join(a, b2) == pre + b2;
    assert b1 == (pre + b1)[|pre|..];
    assert b2 == (pre + b2)[|pre|..];
  }

  /** A month folder names its month and year. */
  lemma MonthFolderInjective(d1: Date, d2: Date)
    requires ValidDate(d1) && ValidDate(d2) && MonthFolder(d1) == MonthFolder(d2)
    ensures d1.year == d2.year && d1.month == d2.month
  {
    var f := MonthFolder(d1);
    assert f[|f| - 4..] == Pad4(d1.year);
    assert f[|f| - 4..] == Pad4(d2.year);
    Pad4RoundTrip(d1.year);
    Pad4RoundTrip(d2.year);
    assert f[..|f| - 5] == MonthName(d1.month);
    assert f[..|f| - 5] == MonthName(d2.month);
    MonthNameRoundTrip(d1.month);
    MonthNameRoundTrip(d2.month);
  }

  /** Two valid dates share a month directory exactly when they fall in the same month of the same year. */
  lemma SameMonthDirIff(root: string, d1: Date, d2: Date)
    requires ValidDate(d1) && ValidDate(d2)
    ensures MonthDir(root, d1) == MonthDir(root, d2) <==> d1.year == d2.year && d1.month == d2.month
  {
    if MonthDir(root, d1) == MonthDir(root, d2) {
      MonthFolderShape(d1);
      MonthFolderShape(d2);
      JoinCancels(root, MonthFolder(d1), MonthFolder(d2));
      MonthFolderInjective(d1, d2);
    }
  }

  // ---------------------------------------------------------------------------
  // The default text of a new log

  /** `date.strftime('%A, %d %B %Y')`. */
  function LongDate(d: Date): string
    requires ValidDate(d)
  {
    WeekdayName(Weekday(d)) + ", " + Pad2(d.day) + " " + MonthName(d.month) + " " + Pad4(d.year)
  }

  /** The text a day's log starts with: `f"# Research Log - {date.strftime('%A, %d %B %Y')}\n\n"`. */
  function Template(d: Date): string
    requires ValidDate(d)
  {
    "# Research Log - " + LongDate(d) + "\n\n"
  }

  /**
   * `t` is the log heading for weekday name `w`, day `day`, month name `m`
   * and year `year`: the fixed title, the weekday name, ", ", the day in two
   * digits, the month name and the year in four digits, each after a space,
   * and a blank line.
   */
  predicate HeadingLayout(t: string, w: string, day: int, m: string, year: int) {
    var k := 17 + |w|;
    && |t| == k + 12 + |m|
    && t[..17] == "# Research Log - "
    && t[17..k] == w
    && t[k..k + 2] == ", " && t[k + 4] == ' '
    && AllDigits(t[k + 2..k + 4]) && Value2(t[k + 2..k + 4]) == day
    && t[k + 5..|t| - 7] == m && t[|t| - 7] == ' '
    && AllDigits(t[|t| - 6..|t| - 2]) && Value4(t[|t| - 6..|t| - 2]) == year
    && t[|t| - 2..] == "\n\n"
  }

  /**
   * The default text of every day names the day's weekday and month in
   * English, and its day and year read back from it.
   */
  lemma TemplateLayout(d: Date)
    requires ValidDate(d)
    ensures HeadingLayout(Template(d), WeekdayName(Weekday(d)), d.day, MonthName(d.month), d.year)
  {
    Pad2RoundTrip(d.day);
    Pad4RoundTrip(d.year);
    TextLayout("# Research Log - ", WeekdayName(Weekday(d)), Pad2(d.day), MonthName(d.month), Pad4(d.year));
  }

  /** Where each part of `heading + weekday + ", " + day + " " + month + " " + year + "\n\n"` lies. */
  lemma TextLayout(heading: string, w: string, dd: string, m: string, yy: string)
    requires |heading| == 17 && |dd| == 2 && |yy| == 4
    ensures var t := heading + (w + ", " + dd + " " + m + " " + yy) + "\n\n"; var k := 17 + |w|;
      && |t| == k + 12 + |m|
      && t[..17] == heading && t[17..k] == w
      && t[k..k + 2] == ", " && t[k + 2..k + 4] == dd && t[k + 4] == ' '
      && t[k + 5..|t| - 7] == m && t[|t| - 7] == ' '
      && t[|t| - 6..|t| - 2] == yy && t[|t| - 2..] == "\n\n"
  {
  }

  lemma FolderAndNameExample()
    ensures MonthFolder(Date(2024, 3, 5)) == "March 2024"
    ensures FileName(Date(2024, 3, 5)) == "05-03-2024.txt"
  {
    assert DigitChar(2) == '2' && DigitChar(0) == '0' && DigitChar(4) == '4';
    assert DigitChar(5) == '5' && DigitChar(3) == '3';
    assert Pad4(2024) == "2024";
    assert Pad2(5) == "05" && Pad2(3) == "03";
  }

  /** The storage layout for 5 March 2024 under root `R`. */
  lemma PathForExample()
    ensures PathFor("R", Date(2024, 3, 5)) == "R/March 2024/05-03-2024.txt"
  {
    FolderAndNameExample();
    assert MonthDir("R", Date(2024, 3, 5)) == "R/March 2024";
  }

  /** 5 March 2024 was a Tuesday. */
  lemma TemplateExample()
    ensures Template(Date(2024, 3, 5)) == "# Research Log - Tuesday, 05 March 2024\n\n"
  {
    assert ToOrdinal(Date(2024, 3, 5)) == 738950;
  }
}
