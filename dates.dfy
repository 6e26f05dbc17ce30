/**
 * Calendar dates as Python's `datetime` module treats them: the proleptic
 * Gregorian calendar restricted to years MINYEAR = 1 .. MAXYEAR = 9999.
 * Arithmetic with `timedelta(days = n)` is modelled as n single-day steps, and
 * is proved equal to Python's own definition (a shift of the proleptic ordinal,
 * raising OverflowError when the result leaves the supported range).
 */
module Dates {
  import opened Wrappers

  const MinYear: int := 1
  const MaxYear: int := 9999

  datatype Date = Date(year: int, month: int, day: int)

  const FirstDate: Date := Date(MinYear, 1, 1)
  const LastDate: Date := Date(MaxYear, 12, 31)

  predicate IsLeapYear(y: int) {
    y % 4 == 0 && (y % 100 != 0 || y % 400 == 0)
  }

  function DaysInMonth(y: int, m: int): int {
    if m == 2 then (if IsLeapYear(y) then 29 else 28)
    else if m == 4 || m == 6 || m == 9 || m == 11 then 30
    else 31
  }

  /** The dates a `datetime` object can hold. */
  predicate ValidDate(d: Date) {
    && MinYear <= d.year <= MaxYear
    && 1 <= d.month <= 12
    && 1 <= d.day <= DaysInMonth(d.year, d.month)
  }

  /** `d + timedelta(days=1)`; None where Python raises OverflowError. */
  function NextDay(d: Date): (r: Option<Date>)
    requires ValidDate(d)
    ensures r.Some? ==> ValidDate(r.value)
    ensures r.None? <==> d == LastDate
  {
    if d.day < DaysInMonth(d.year, d.month) then Some(d.(day := d.day + 1))
    else if d.month < 12 then Some(Date(d.year, d.month + 1, 1))
    else if d.year < MaxYear then Some(Date(d.year + 1, 1, 1))
    else None
  }

  /** `d - timedelta(days=1)`; None where Python raises OverflowError. */
  function PrevDay(d: Date): (r: Option<Date>)
    requires ValidDate(d)
    ensures r.Some? ==> ValidDate(r.value)
    ensures r.None? <==> d == FirstDate
  {
    if d.day > 1 then Some(d.(day := d.day - 1))
    else if d.month > 1 then Some(Date(d.year, d.month - 1, DaysInMonth(d.year, d.month - 1)))
    else if d.year > MinYear then Some(Date(d.year - 1, 12, 31))
    else None
  }

  /** `d + timedelta(days=n)` for any integer n, one day at a time. */
  function AddDays(d: Date, n: int): (r: Option<Date>)
    requires ValidDate(d)
    ensures r.Some? ==> ValidDate(r.value)
    decreases if n < 0 then -n else n
  {
    if n == 0 then Some(d)
    else if n > 0 then
      match NextDay(d)
      case None => None
      case Some(e) => AddDays(e, n - 1)
    else
      match PrevDay(d)
      case None => None
      case Some(e) => AddDays(e, n + 1)
  }

  /** `d.replace(day=day)`; None where Python raises ValueError. */
  function WithDay(d: Date, day: int): (r: Option<Date>)
    requires ValidDate(d)
    ensures r.Some? <==> 1 <= day <= DaysInMonth(d.year, d.month)
    ensures r.Some? ==> ValidDate(r.value) && r.value == Date(d.year, d.month, day)
  {
    if 1 <= day <= DaysInMonth(d.year, d.month) then Some(d.(day := day)) else None
  }

  /** `prev_month`: `d.replace(day=1) - timedelta(days=1)`. */
  function PrevMonthDate(d: Date): (r: Option<Date>)
    requires ValidDate(d)
    ensures r.None? <==> d.year == MinYear && d.month == 1
    ensures r.Some? ==> ValidDate(r.value)
  {
    match WithDay(d, 1)
    case None => None
    case Some(first) => AddDays(first, -1)
  }

  /** `next_month`: `(d.replace(day=28) + timedelta(days=4)).replace(day=1)`. */
  function NextMonthDate(d: Date): (r: Option<Date>)
    requires ValidDate(d)
    ensures r.Some? ==> ValidDate(r.value) && r.value.day == 1
  {
    match WithDay(d, 28)
    case None => None
    case Some(late) =>
      match AddDays(late, 4)
      case None => None
      case Some(later) => WithDay(later, 1)
  }

  // ---------------------------------------------------------------------------
  // Month navigation lands where it should

  /** Going back from the first day of a month lands on the last day of the previous one. */
  lemma PrevMonthIsLastDayOfPreviousMonth(d: Date)
    requires ValidDate(d)
    ensures d.year == MinYear && d.month == 1 ==> PrevMonthDate(d).None?
    ensures !(d.year == MinYear && d.month == 1) ==>
      var y := if d.month == 1 then d.year - 1 else d.year;
      var m := if d.month == 1 then 12 else d.month - 1;
      && PrevMonthDate(d) == Some(Date(y, m, DaysInMonth(y, m)))
      && ValidDate(PrevMonthDate(d).value)
      && NextDay(PrevMonthDate(d).value) == Some(Date(d.year, d.month, 1))
  {
    var first := Date(d.year, d.month, 1);
    assert WithDay(d, 1) == Some(first);
    if first != FirstDate {
      var p := PrevDay(first).value;
      assert AddDays(first, -1) == AddDays(p, 0);
    }
  }

  /** Day 28 plus four days is always in the following month, so resetting the day gives its first day. */
  lemma NextMonthIsFirstOfNextMonth(d: Date)
    requires ValidDate(d)
    ensures d.year == MaxYear && d.month == 12 ==> NextMonthDate(d).None?
    ensures !(d.year == MaxYear && d.month == 12) ==>
      var y := if d.month == 12 then d.year + 1 else d.year;
      var m := if d.month == 12 then 1 else d.month + 1;
      NextMonthDate(d) == Some(Date(y, m, 1)) && ValidDate(Date(y, m, 1))
  {
    var late := Date(d.year, d.month, 28);
    assert WithDay(d, 28) == Some(late);
    var r := DaysInMonth(d.year, d.month) - 28;
    var last := Date(d.year, d.month, 28 + r);
    AddDaysWithinMonth(late, r);
    AddDaysCompose(late, r, 4 - r);
    if !(d.year == MaxYear && d.month == 12) {
      var y := if d.month == 12 then d.year + 1 else d.year;
      var m := if d.month == 12 then 1 else d.month + 1;
      var first := Date(y, m, 1);
      assert NextDay(last) == Some(first);
      AddDaysCompose(last, 1, 3 - r);
      assert AddDays(last, 1) == AddDays(first, 0);
      AddDaysWithinMonth(first, 3 - r);
    } else {
      assert NextDay(last).None?;
      AddDaysCompose(last, 1, 3 - r);
    }
  }

  /** Moving forward without passing the end of the month only changes the day. */
  lemma {:induction false} AddDaysWithinMonth(d: Date, k: nat)
    requires ValidDate(d) && d.day + k <= DaysInMonth(d.year, d.month)
    ensures AddDays(d, k) == Some(Date(d.year, d.month, d.day + k))
    decreases k
  {
    if k > 0 {
      AddDaysWithinMonth(d.(day := d.day + 1), k - 1);
    }
  }

  /** Adding a + b days is adding a days and then b more. */
  lemma {:induction false} AddDaysCompose(d: Date, a: nat, b: nat)
    requires ValidDate(d)
    ensures AddDays(d, a + b) == match AddDays(d, a) case None => None case Some(e) => AddDays(e, b)
    decreases a
  {
    if a > 0 && NextDay(d).Some? {
      AddDaysCompose(NextDay(d).value, a - 1, b);
    }
  }

  // ---------------------------------------------------------------------------
  // The proleptic Gregorian ordinal (`date.toordinal()`), Python's reference
  // definition of date arithmetic and of the weekday

  function DaysBeforeYear(y: int): int
    requires y >= 1
  {
    var a := y - 1;
    a * 365 + a / 4 - a / 100 + a / 400
  }

  function DaysBeforeMonth(y: int, m: int): int
    requires 1 <= m <= 12
  {
    [0, 31, 59, 90, 120, 151, 181, 212, 243, 273, 304, 334][m - 1]
      + (if m > 2 && IsLeapYear(y) then 1 else 0)
  }

  /** Day 1 is 0001-01-01. */
  function ToOrdinal(d: Date): int
    requires ValidDate(d)
  {
    DaysBeforeYear(d.year) + DaysBeforeMonth(d.year, d.month) + d.day
  }

  /** `date.max.toordinal()`. */
  const MaxOrdinal: int := 3652059

  /** `date.weekday()`: 0 is Monday, 6 is Sunday. */
  function Weekday(d: Date): (w: int)
    requires ValidDate(d)
    ensures 0 <= w < 7
  {
    (ToOrdinal(d) + 6) % 7
  }

  lemma YearStep(y: int)
    requires y >= 1
    ensures DaysBeforeYear(y + 1) == DaysBeforeYear(y) + (if IsLeapYear(y) then 366 else 365)
  {
    QuotientStep4(y);
    QuotientStep100(y);
    QuotientStep400(y);
  }

  // How y / k moves from y - 1 to y: it grows by one exactly at multiples of k.

  lemma QuotientStep4(y: int)
    ensures y / 4 - (y - 1) / 4 == if y % 4 == 0 then 1 else 0
  {
  }

  lemma QuotientStep100(y: int)
    ensures y / 100 - (y - 1) / 100 == if y % 100 == 0 then 1 else 0
  {
  }

  lemma QuotientStep400(y: int)
    ensures y / 400 - (y - 1) / 400 == if y % 400 == 0 then 1 else 0
  {
  }

  /** One day forward is one ordinal forward. */
  lemma NextDayOrdinal(d: Date)
    requires ValidDate(d) && d != LastDate
    ensures ToOrdinal(NextDay(d).value) == ToOrdinal(d) + 1
  {
    if d.day == DaysInMonth(d.year, d.month) && d.month == 12 {
      YearStep(d.year);
    }
  }

  /** NextDay and PrevDay undo each other. */
  lemma NextPrevInverse(d: Date, e: Date)
    requires ValidDate(d) && ValidDate(e)
    ensures NextDay(d) == Some(e) <==> PrevDay(e) == Some(d)
  {
  }

  lemma PrevDayOrdinal(d: Date)
    requires ValidDate(d) && d != FirstDate
    ensures ToOrdinal(PrevDay(d).value) == ToOrdinal(d) - 1
  {
    var e := PrevDay(d).value;
    NextPrevInverse(e, d);
    NextDayOrdinal(e);
  }

  lemma {:induction false} DaysBeforeYearBounds(y: int)
    requires 1 <= y <= MaxYear + 1
    ensures (y - 1) * 365 <= DaysBeforeYear(y)
    ensures DaysBeforeYear(y) + (MaxYear + 1 - y) * 365 <= DaysBeforeYear(MaxYear + 1)
    decreases MaxYear + 1 - y
  {
    if y <= MaxYear {
      YearStep(y);
      DaysBeforeYearBounds(y + 1);
    }
  }

  /** Every valid date has an ordinal in 1 .. MaxOrdinal. */
  lemma OrdinalBounds(d: Date)
    requires ValidDate(d)
    ensures 1 <= ToOrdinal(d) <= MaxOrdinal
  {
    DaysBeforeYearBounds(d.year);
    YearStep(d.year);
    assert DaysBeforeMonth(d.year, d.month) + DaysInMonth(d.year, d.month)
      <= (if IsLeapYear(d.year) then 366 else 365);
    if d.year < MaxYear {
      DaysBeforeYearBounds(d.year + 1);
    }
  }

  /**
   * AddDays is Python's date arithmetic: it succeeds exactly when the shifted
   * ordinal is within range, and then its result has that ordinal.
   */
  lemma AddDaysIsOrdinalShift(d: Date, n: int)
    requires ValidDate(d)
    ensures AddDays(d, n).Some? <==> 1 <= ToOrdinal(d) + n <= MaxOrdinal
    ensures AddDays(d, n).Some? ==> ToOrdinal(AddDays(d, n).value) == ToOrdinal(d) + n
  {
    OrdinalBounds(d);
    if n >= 0 {
      AddDaysForward(d, n);
    } else {
      AddDaysBackward(d, -n);
    }
  }

  /** Moving k days forward is an ordinal shift by k, defined up to date.max. */
  lemma {:induction false} AddDaysForward(d: Date, k: nat)
    requires ValidDate(d)
    ensures AddDays(d, k).Some? <==> ToOrdinal(d) + k <= MaxOrdinal
    ensures AddDays(d, k).Some? ==> ToOrdinal(AddDays(d, k).value) == ToOrdinal(d) + k
    decreases k
  {
    OrdinalBounds(d);
    if k > 0 {
      if d == LastDate {
        assert ToOrdinal(d) == MaxOrdinal;
      } else {
        var e := NextDay(d).value;
        NextDayOrdinal(d);
        assert AddDays(d, k) == AddDays(e, k - 1);
        AddDaysForward(e, k - 1);
      }
    }
  }

  /** Moving k days back is an ordinal shift by -k, defined down to date.min. */
  lemma {:induction false} AddDaysBackward(d: Date, k: int)
    requires ValidDate(d) && 0 <= k
    ensures AddDays(d, -k).Some? <==> 1 <= ToOrdinal(d) - k
    ensures AddDays(d, -k).Some? ==> ToOrdinal(AddDays(d, -k).value) == ToOrdinal(d) - k
    decreases k
  {
    if k == 0 {
      OrdinalBounds(d);
    } else if d == FirstDate {
      BackFromFirst(k);
    } else {
      var e := PrevDay(d).value;
      BackStep(d, e, k);
      AddDaysBackward(e, k - 1);
    }
  }

  /** Nothing precedes date.min. */
  lemma BackFromFirst(k: int)
    requires 0 < k
    ensures AddDays(FirstDate, -k).None?
  {
  }

  /** One step back: d - k days is (d - 1 day) - (k - 1) days, one ordinal lower. */
  lemma BackStep(d: Date, e: Date, k: int)
    requires ValidDate(d) && 0 < k && PrevDay(d) == Some(e)
    ensures AddDays(d, -k) == AddDays(e, -(k - 1))
    ensures ToOrdinal(e) == ToOrdinal(d) - 1
  {
    PrevDayOrdinal(d);
  }

  /** The weekday advances by one, cyclically, from one day to the next. */
  lemma WeekdayOfNextDay(d: Date)
    requires ValidDate(d) && d != LastDate
    ensures Weekday(NextDay(d).value) == (Weekday(d) + 1) % 7
  {
    NextDayOrdinal(d);
    var o := ToOrdinal(d);
    WeekdayStep(o);
  }

  lemma WeekdayStep(o: int)
    ensures (o + 1 + 6) % 7 == ((o + 6) % 7 + 1) % 7
  {
  }
}
