/** Counting days one by one, and the closed formula for their number. */
module Calendar {
  import opened Arithmetic

  datatype Date = Date(year: int, month: int, day: int)

  predicate Leap(y: int) {
    (y % 4 == 0 && y % 100 != 0) || y % 400 == 0
  }

  const DAYS_BEFORE := [0, 31, 59, 90, 120, 151, 181, 212, 243, 273, 304, 334]

  function DaysIn(y: int, m: int): int
    requires 1 <= m <= 12
  {
    if m == 2 then (if Leap(y) then 29 else 28)
    else if m == 4 || m == 6 || m == 9 || m == 11 then 30
    else 31
  }

  predicate ValidDate(d: Date) {
    1 <= d.month <= 12 && 1 <= d.day <= DaysIn(d.year, d.month)
  }

  function NextDay(d: Date): Date
    requires ValidDate(d)
  {
    if d.day < DaysIn(d.year, d.month) then d.(day := d.day + 1)
    else if d.month < 12 then Date(d.year, d.month + 1, 1)
    else Date(d.year + 1, 1, 1)
  }

  function PreviousDay(d: Date): Date
    requires ValidDate(d)
  {
    if d.day > 1 then d.(day := d.day - 1)
    else if d.month > 1 then Date(d.year, d.month - 1, DaysIn(d.year, d.month - 1))
    else Date(d.year - 1, 12, 31)
  }

  // The date n days after (or -n days before) the first of January 1970.
  function DateOf(n: int): (d: Date)
    ensures ValidDate(d)
    decreases if n < 0 then -n else n
  {
    if n == 0 then Date(1970, 1, 1)
    else if n > 0 then NextDay(DateOf(n - 1))
    else PreviousDay(DateOf(n + 1))
  }

  // ---- The closed formula ----

  function DaysBeforeYear(y: int): int {
    365 * (y - 1970) + (y - 1969) / 4 - (y - 1901) / 100 + (y - 1601) / 400
  }

  function YearDay(d: Date): int
    requires 1 <= d.month <= 12
  {
    DAYS_BEFORE[d.month - 1] + (d.day - 1) + if d.month > 2 && Leap(d.year) then 1 else 0
  }

  function DayNumber(d: Date): int
    requires 1 <= d.month <= 12
  {
    DaysBeforeYear(d.year) + YearDay(d)
  }

  lemma FourthYear(y: int)
    ensures (y - 1968) / 4 == (y - 1969) / 4 + if y % 4 == 0 then 1 else 0
  {
  }

  lemma HundredthYear(y: int)
    ensures (y - 1900) / 100 == (y - 1901) / 100 + if y % 100 == 0 then 1 else 0
  {
  }

  lemma FourHundredthYear(y: int)
    ensures (y - 1600) / 400 == (y - 1601) / 400 + if y % 400 == 0 then 1 else 0
  {
  }

  lemma LeapSteps(y: int)
    ensures (if Leap(y) then 1 else 0)
         == (if y % 4 == 0 then 1 else 0) - (if y % 100 == 0 then 1 else 0) + (if y % 400 == 0 then 1 else 0)
  {
    if y % 400 == 0 {
      DivideExactly(y, 100, 4 * (y / 400), 0);
    }
    if y % 100 == 0 {
      DivideExactly(y, 4, 25 * (y / 100), 0);
    }
  }

  lemma OneYearOn(y: int)
    ensures DaysBeforeYear(y + 1) == DaysBeforeYear(y) + if Leap(y) then 366 else 365
  {
    FourthYear(y);
    HundredthYear(y);
    FourHundredthYear(y);
    LeapSteps(y);
    assert y + 1 - 1969 == y - 1968 && y + 1 - 1901 == y - 1900 && y + 1 - 1601 == y - 1600;
  }

  lemma OneDayOn(d: Date)
    requires ValidDate(d)
    ensures ValidDate(NextDay(d)) && DayNumber(NextDay(d)) == DayNumber(d) + 1
  {
    OneYearOn(d.year);
  }

  lemma DayBackAndOn(d: Date)
    requires ValidDate(d)
    ensures ValidDate(PreviousDay(d)) && NextDay(PreviousDay(d)) == d
  {
  }

  // The formula counts: day by day from 1970, in both directions, each date
  // gets the next number.
  lemma {:induction false} FormulaCountsDays(n: int)
    ensures DayNumber(DateOf(n)) == n
    decreases if n < 0 then -n else n
  {
    if n > 0 {
      FormulaCountsDays(n - 1);
      OneDayOn(DateOf(n - 1));
    } else if n < 0 {
      FormulaCountsDays(n + 1);
      DayBackAndOn(DateOf(n + 1));
      OneDayOn(PreviousDay(DateOf(n + 1)));
    }
  }

  predicate Earlier(a: Date, b: Date) {
    a.year < b.year || (a.year == b.year && (a.month < b.month || (a.month == b.month && a.day < b.day)))
  }

  lemma {:induction false} YearsRise(a: int, b: int)
    requires a <= b
    ensures DaysBeforeYear(a) <= DaysBeforeYear(b)
    decreases b - a
  {
    if a < b {
      YearsRise(a, b - 1);
      OneYearOn(b - 1);
    }
  }

  lemma WithinYear(d: Date)
    requires ValidDate(d)
    ensures 0 <= YearDay(d) < if Leap(d.year) then 366 else 365
  {
  }

  lemma EarlierIsLess(a: Date, b: Date)
    requires ValidDate(a) && ValidDate(b) && Earlier(a, b)
    ensures DayNumber(a) < DayNumber(b)
  {
    if a.year < b.year {
      YearsRise(a.year + 1, b.year);
      OneYearOn(a.year);
      WithinYear(a);
      WithinYear(b);
    }
  }

  // Every calendar date is counted, under the number the formula gives it.
  lemma EveryDateIsCounted(d: Date)
    requires ValidDate(d)
    ensures DateOf(DayNumber(d)) == d
  {
    var e := DateOf(DayNumber(d));
    FormulaCountsDays(DayNumber(d));
    if Earlier(d, e) {
      EarlierIsLess(d, e);
    } else if Earlier(e, d) {
      EarlierIsLess(e, d);
    }
  }
}
