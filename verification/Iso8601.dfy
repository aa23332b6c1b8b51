/** Time stamps as text: the shape of section 5.6 of RFC 3339, as written for
    stored tokens and read back. */
module Iso8601 {
  import opened Arithmetic
  import opened Wrappers
  import opened Calendar

  const SECONDS_PER_DAY := 86400

  // ---- Reading numbers: leading blanks, a sign, then digits up to the first other character ----

  predicate Blank(c: char) {
    c == ' ' || (9 <= c as int <= 13)
  }

  predicate IsDigit(c: char) {
    '0' <= c <= '9'
  }

  function DigitValue(c: char): nat
    requires IsDigit(c)
  {
    c as int - '0' as int
  }

  function SkipBlanks(s: string): string {
    if s != "" && Blank(s[0]) then SkipBlanks(s[1..]) else s
  }

  function Accumulate(s: string, acc: nat): nat {
    if s == "" || !IsDigit(s[0]) then acc else Accumulate(s[1..], 10 * acc + DigitValue(s[0]))
  }

  function Unsigned(s: string): Option<nat> {
    if s == "" || !IsDigit(s[0]) then None else Some(Accumulate(s, 0))
  }

  function Stoi(text: string): Option<int> {
    var s := SkipBlanks(text);
    if s != "" && s[0] == '-' then
      (var n := Unsigned(s[1..]); if n.None? then None else Some(0 - n.value as int))
    else if s != "" && s[0] == '+' then
      (var n := Unsigned(s[1..]); if n.None? then None else Some(n.value as int))
    else
      (var n := Unsigned(s); if n.None? then None else Some(n.value as int))
  }

  // ---- The reader ----

  // Division as the machine does it, toward zero.
  function Quotient(a: int, b: int): int
    requires b > 0
  {
    if a >= 0 then a / b else -(-a / b)
  }

  function ReadDaysBeforeYear(y: int): int {
    365 * (y - 1970) + Quotient(y - 1969, 4) - Quotient(y - 1901, 100) + Quotient(y - 1601, 400)
  }

  datatype Fields = Fields(year: int, month: int, day: int, hour: int, minute: int, second: int)

  predicate InRange(f: Fields) {
    1 <= f.month <= 12 && 1 <= f.day <= 31 && 0 <= f.hour <= 23 && 0 <= f.minute <= 59 && 0 <= f.second <= 60
  }

  function ReadFields(iso: string): Option<Fields> {
    if |iso| < 20 || iso[10] != 'T' || iso[19] != 'Z' then None
    else
      var y, m, d := Stoi(iso[0..4]), Stoi(iso[5..7]), Stoi(iso[8..10]);
      var h, i, s := Stoi(iso[11..13]), Stoi(iso[14..16]), Stoi(iso[17..19]);
      if y.None? || m.None? || d.None? || h.None? || i.None? || s.None? then None
      else Some(Fields(y.value, m.value, d.value, h.value, i.value, s.value))
  }

  function ToSeconds(f: Fields): int
    requires InRange(f)
  {
    (ReadDaysBeforeYear(f.year) + YearDay(Date(f.year, f.month, f.day))) * SECONDS_PER_DAY
    + f.hour * 3600 + f.minute * 60 + f.second
  }

  // Zero stands for a time that is not known.
  function Parse(iso: string): int {
    var f := ReadFields(iso);
    if f.None? || !InRange(f.value) then 0 else ToSeconds(f.value)
  }

  // ---- The writer ----

  function DigitOf(n: int): char {
    ('0' as int + n % 10) as char
  }

  function Written(f: Fields): string
    requires f.year >= 0
  {
    [DigitOf(f.year / 1000), DigitOf(f.year / 100), DigitOf(f.year / 10), DigitOf(f.year), '-',
     DigitOf(f.month / 10), DigitOf(f.month), '-', DigitOf(f.day / 10), DigitOf(f.day), 'T',
     DigitOf(f.hour / 10), DigitOf(f.hour), ':', DigitOf(f.minute / 10), DigitOf(f.minute), ':',
     DigitOf(f.second / 10), DigitOf(f.second), 'Z']
  }

  // The calendar date and time of day of a moment, by counting days.
  function FieldsAt(t: int): Fields {
    var d, s := DateOf(t / SECONDS_PER_DAY), t % SECONDS_PER_DAY;
    Fields(d.year, d.month, d.day, s / 3600, s / 60 % 60, s % 60)
  }

  function Format(t: int): string
    requires 1000 <= FieldsAt(t).year <= 9999
  {
    Written(FieldsAt(t))
  }

  // ---- Reading what was written ----

  predicate CalendarTime(f: Fields) {
    InRange(f) && ValidDate(Date(f.year, f.month, f.day)) && f.second <= 59
  }

  // Appending the last digit of n to the digits of n / 10.
  lemma OneMoreDigit(n: nat, rest: string)
    ensures Accumulate([DigitOf(n)] + rest, n / 10) == Accumulate(rest, n)
  {
    assert ([DigitOf(n)] + rest)[1..] == rest;
  }

  lemma TwoDigits(n: int)
    requires 0 <= n <= 99
    ensures Stoi([DigitOf(n / 10), DigitOf(n)]) == Some(n)
  {
    var s := [DigitOf(n / 10), DigitOf(n)];
    OneMoreDigit(n / 10, [DigitOf(n)]);
    OneMoreDigit(n, "");
    assert s == [DigitOf(n / 10)] + [DigitOf(n)] && [DigitOf(n)] == [DigitOf(n)] + "";
  }

  lemma FourDigits(n: int)
    requires 0 <= n <= 9999
    ensures Stoi([DigitOf(n / 1000), DigitOf(n / 100), DigitOf(n / 10), DigitOf(n)]) == Some(n)
  {
    var s := [DigitOf(n / 1000), DigitOf(n / 100), DigitOf(n / 10), DigitOf(n)];
    FourAccumulate(n);
    assert s == [DigitOf(n / 1000)] + ([DigitOf(n / 100)] + ([DigitOf(n / 10)] + ([DigitOf(n)] + "")));
  }

  lemma QuotientsChain(n: nat)
    requires n <= 9999
    ensures n / 10 / 10 == n / 100 && n / 100 / 10 == n / 1000 && n / 1000 / 10 == 0
  {
  }

  lemma FourAccumulate(n: nat)
    requires n <= 9999
    ensures Accumulate([DigitOf(n / 1000)] + ([DigitOf(n / 100)] + ([DigitOf(n / 10)] + ([DigitOf(n)] + ""))), 0) == n
  {
    QuotientsChain(n);
    var one := [DigitOf(n)] + "";
    var two := [DigitOf(n / 10)] + one;
    var three := [DigitOf(n / 100)] + two;
    OneMoreDigit(n / 1000, three);
    OneMoreDigit(n / 100, two);
    OneMoreDigit(n / 10, one);
    OneMoreDigit(n, "");
    assert Accumulate("", n) == n;
  }

  // Where the six numbers stand in a stamp.
  lemma NumbersInPlace(s: string)
    requires |s| == 20
    ensures s[0..4] == [s[0], s[1], s[2], s[3]] && s[5..7] == [s[5], s[6]] && s[8..10] == [s[8], s[9]]
    ensures s[11..13] == [s[11], s[12]] && s[14..16] == [s[14], s[15]] && s[17..19] == [s[17], s[18]]
  {
  }

  lemma DateIsRead(f: Fields, s: string)
    requires 0 <= f.year <= 9999 && InRange(f) && s == Written(f)
    ensures |s| == 20 && s[10] == 'T' && s[19] == 'Z'
    ensures Stoi(s[0..4]) == Some(f.year) && Stoi(s[5..7]) == Some(f.month) && Stoi(s[8..10]) == Some(f.day)
  {
    NumbersInPlace(s);
    FourDigits(f.year);
    TwoDigits(f.month);
    TwoDigits(f.day);
  }

  lemma TimeIsRead(f: Fields, s: string)
    requires 0 <= f.year <= 9999 && InRange(f) && s == Written(f)
    ensures |s| == 20
    ensures Stoi(s[11..13]) == Some(f.hour) && Stoi(s[14..16]) == Some(f.minute) && Stoi(s[17..19]) == Some(f.second)
  {
    NumbersInPlace(s);
    TwoDigits(f.hour);
    TwoDigits(f.minute);
    TwoDigits(f.second);
  }

  lemma WrittenIsRead(f: Fields)
    requires 0 <= f.year <= 9999 && InRange(f)
    ensures ReadFields(Written(f)) == Some(f) && Parse(Written(f)) == ToSeconds(f)
  {
    DateIsRead(f, Written(f));
    TimeIsRead(f, Written(f));
  }

  // ---- Where the reader counts as the calendar does ----

  function RoundedUp(a: int, b: int): int
    requires b > 0
  {
    if a < 0 && a % b != 0 then 1 else 0
  }

  // Before 1969 the divisions toward zero are off; they cancel in some years.
  predicate CountsRight(y: int) {
    RoundedUp(y - 1969, 4) + RoundedUp(y - 1601, 400) == RoundedUp(y - 1901, 100)
  }

  lemma QuotientError(a: int, b: int)
    requires b > 0
    ensures Quotient(a, b) == a / b + RoundedUp(a, b)
  {
    if a < 0 {
      var q, r := a / b, a % b;
      assert a == q * b + r;
      NegatedQuotient(a, b, q, r);
    }
  }

  lemma NegatedQuotient(a: int, b: int, q: int, r: int)
    requires b > 0 && a == q * b + r && 0 <= r < b
    ensures -a / b == if r == 0 then -q else -q - 1
  {
    if r == 0 {
      DivideExactly(-a, b, -q, 0);
    } else {
      DivideExactly(-a, b, -q - 1, b - r);
    }
  }

  lemma ReaderCountsRight(y: int)
    ensures ReadDaysBeforeYear(y) == DaysBeforeYear(y) <==> CountsRight(y)
    ensures y >= 1969 ==> CountsRight(y)
  {
    QuotientError(y - 1969, 4);
    QuotientError(y - 1901, 100);
    QuotientError(y - 1601, 400);
  }

  // For a calendar date from 1970 on the reader gives the number of seconds
  // found by counting days one by one.
  lemma ParseCountsDays(f: Fields)
    requires 1970 <= f.year <= 9999 && InRange(f) && ValidDate(Date(f.year, f.month, f.day))
    ensures exists n :: DateOf(n) == Date(f.year, f.month, f.day)
                        && Parse(Written(f)) == n * SECONDS_PER_DAY + f.hour * 3600 + f.minute * 60 + f.second
  {
    var d := Date(f.year, f.month, f.day);
    WrittenIsRead(f);
    ReaderCountsRight(f.year);
    EveryDateIsCounted(d);
    assert DateOf(DayNumber(d)) == d;
  }

  lemma TimeOfDay(s: int)
    requires 0 <= s < SECONDS_PER_DAY
    ensures 0 <= s / 3600 <= 23 && 0 <= s / 60 % 60 <= 59 && 0 <= s % 60 <= 59
    ensures s / 3600 * 3600 + s / 60 % 60 * 60 + s % 60 == s
  {
  }

  // Reading a written stamp gives back the moment, exactly in the years in
  // which the reader counts right, and so in all years from 1969 on.
  lemma ParseUndoesFormat(t: int)
    requires 1000 <= FieldsAt(t).year <= 9999
    ensures Parse(Format(t)) == t <==> CountsRight(FieldsAt(t).year)
    ensures FieldsAt(t).year >= 1969 ==> Parse(Format(t)) == t
  {
    var n, s, f := t / SECONDS_PER_DAY, t % SECONDS_PER_DAY, FieldsAt(t);
    TimeOfDay(s);
    FormulaCountsDays(n);
    WrittenIsRead(f);
    ReaderCountsRight(f.year);
  }

  // ---- Order ----

  predicate Before(a: Fields, b: Fields) {
    var da, db := Date(a.year, a.month, a.day), Date(b.year, b.month, b.day);
    Earlier(da, db) || (da == db && (a.hour < b.hour || (a.hour == b.hour &&
      (a.minute < b.minute || (a.minute == b.minute && a.second < b.second)))))
  }

  // On calendar times from 1970 on, later stamps read as larger numbers.
  lemma ParseIsIncreasing(a: Fields, b: Fields)
    requires CalendarTime(a) && CalendarTime(b) && Before(a, b)
    requires 1970 <= a.year <= 9999 && 1970 <= b.year <= 9999
    ensures Parse(Written(a)) < Parse(Written(b))
  {
    var da, db := Date(a.year, a.month, a.day), Date(b.year, b.month, b.day);
    WrittenIsRead(a);
    WrittenIsRead(b);
    ReaderCountsRight(a.year);
    ReaderCountsRight(b.year);
    if Earlier(da, db) {
      EarlierIsLess(da, db);
      assert (DayNumber(db) - DayNumber(da)) * SECONDS_PER_DAY >= SECONDS_PER_DAY;
    }
  }

  // Days are checked against 31 only: a day past the end of its month reads as
  // a day of the next month.
  lemma DayPastTheMonth(f: Fields, k: int)
    requires 0 <= f.year <= 9999 && InRange(f) && f.month < 12
    requires k >= 1 && f.day == DaysIn(f.year, f.month) + k
    ensures Parse(Written(f)) == Parse(Written(f.(month := f.month + 1, day := k)))
  {
    WrittenIsRead(f);
    WrittenIsRead(f.(month := f.month + 1, day := k));
  }
}
