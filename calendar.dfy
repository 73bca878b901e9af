/** The part of Python's `datetime.date` the form handler uses: the
    constructor's range checks and `weekday()`, on the proleptic Gregorian
    calendar, computed as CPython does through the day's ordinal number
    (1 January of year 1 is day 1). */
module Calendar {
  import opened Wrappers
  import opened Values

  const MinYear := 1
  const MaxYear := 9999

  datatype Date = Date(year: int, month: int, day: int)

  predicate IsLeap(year: int)
  {
    year % 4 == 0 && (year % 100 != 0 || year % 400 == 0)
  }

  function DaysInMonth(year: int, month: int): (n: int)
    requires 1 <= month <= 12
    ensures 28 <= n <= 31
  {
    if month == 2 && IsLeap(year) then 29
    else [31, 28, 31, 30, 31, 30, 31, 31, 30, 31, 30, 31][month - 1]
  }

  /** Days in the months of `year` before `month`. */
  function DaysBeforeMonth(year: int, month: int): int
    requires 1 <= month <= 12
  {
    [0, 31, 59, 90, 120, 151, 181, 212, 243, 273, 304, 334][month - 1]
    + if month > 2 && IsLeap(year) then 1 else 0
  }

  /** Days in the years before `year`. */
  function DaysBeforeYear(year: int): int
  {
    var y := year - 1;
    y * 365 + y / 4 - y / 100 + y / 400
  }

  /** What `date(year, month, day)` accepts without a ValueError. */
  predicate Valid(dt: Date)
  {
    && MinYear <= dt.year <= MaxYear
    && 1 <= dt.month <= 12
    && 1 <= dt.day <= DaysInMonth(dt.year, dt.month)
  }

  /** The range of a C `int`, the type `date()` converts its three
      arguments to before it checks them. */
  const MinCInt := -0x8000_0000
  const MaxCInt := 0x7FFF_FFFF

  predicate FitsCInt(n: int)
  {
    MinCInt <= n <= MaxCInt
  }

  /** `datetime.date(year, month, day)`: a component that does not fit a
      C int raises OverflowError while the arguments are converted; a date
      outside the calendar then raises ValueError. */
  function NewDate(year: int, month: int, day: int): (r: Result<Date, Error>)
    ensures r.Success? <==> Valid(Date(year, month, day))
    ensures r.Success? ==> r.value == Date(year, month, day)
    ensures !(FitsCInt(year) && FitsCInt(month) && FitsCInt(day)) ==> r == Failure(OverflowError)
    ensures FitsCInt(year) && FitsCInt(month) && FitsCInt(day) && !Valid(Date(year, month, day)) ==>
              r == Failure(ValueError)
  {
    var dt := Date(year, month, day);
    if !(FitsCInt(year) && FitsCInt(month) && FitsCInt(day)) then Failure(OverflowError)
    else if Valid(dt) then Success(dt)
    else Failure(ValueError)
  }

  /** `date.toordinal()`. */
  function Ordinal(dt: Date): (n: int)
    requires Valid(dt)
    ensures n >= 1
  {
    DaysBeforeYear(dt.year) + DaysBeforeMonth(dt.year, dt.month) + dt.day
  }

  /** `date.weekday()`: Monday is 0 and Sunday is 6. */
  function Weekday(dt: Date): (w: int)
    requires Valid(dt)
    ensures 0 <= w < 7
  {
    (Ordinal(dt) + 6) % 7
  }

  /** The day after `dt`. */
  function Next(dt: Date): Date
    requires Valid(dt)
  {
    if dt.day < DaysInMonth(dt.year, dt.month) then Date(dt.year, dt.month, dt.day + 1)
    else if dt.month < 12 then Date(dt.year, dt.month + 1, 1)
    else Date(dt.year + 1, 1, 1)
  }

  /** `y / k` grows by one exactly at the multiples of `k`. */
  lemma DivStep(y: int, k: int)
    requires y >= 1 && k in {4, 100, 400}
    ensures y / k - (y - 1) / k == if y % k == 0 then 1 else 0
  {
    var q, r := y / k, y % k;
    assert y == k * q + r && 0 <= r < k;
    if r == 0 {
      assert y - 1 == k * (q - 1) + (k - 1);
      assert (y - 1) / k == q - 1;
    } else {
      assert y - 1 == k * q + (r - 1);
      assert (y - 1) / k == q;
    }
  }

  lemma Multiple400(y: int)
    requires y % 400 == 0
    ensures y % 100 == 0
  {
    var q := y / 400;
    assert y == 100 * (4 * q);
  }

  lemma Multiple100(y: int)
    requires y % 100 == 0
    ensures y % 4 == 0
  {
    var q := y / 100;
    assert y == 100 * q;
    assert y == 4 * (25 * q);
  }

  /** A year has 366 days when it is a leap year and 365 otherwise. */
  lemma YearLength(year: int)
    requires year >= 1
    ensures DaysBeforeYear(year + 1) - DaysBeforeYear(year) == if IsLeap(year) then 366 else 365
  {
    DivStep(year, 4);
    DivStep(year, 100);
    DivStep(year, 400);
    var a, b, c := year / 4 - (year - 1) / 4, year / 100 - (year - 1) / 100, year / 400 - (year - 1) / 400;
    assert DaysBeforeYear(year + 1) - DaysBeforeYear(year) == 365 + a - b + c;
    if year % 400 == 0 {
      Multiple400(year);
      Multiple100(year);
    } else if year % 100 == 0 {
      Multiple100(year);
    }
  }

  lemma ModSucc(n: int)
    ensures (n + 1) % 7 == (n % 7 + 1) % 7
  {
    var q, w := n / 7, n % 7;
    assert n == 7 * q + w && 0 <= w < 7;
    if w < 6 {
      assert n + 1 == 7 * q + (w + 1);
    } else {
      assert n + 1 == 7 * (q + 1);
    }
  }

  /** Consecutive days have consecutive ordinals, across the end of a
      month and of a year too. */
  lemma NextOrdinal(dt: Date)
    requires Valid(dt) && dt != Date(MaxYear, 12, 31)
    ensures Valid(Next(dt)) && Ordinal(Next(dt)) == Ordinal(dt) + 1
  {
    if dt.day == DaysInMonth(dt.year, dt.month) && dt.month == 12 {
      YearLength(dt.year);
    }
  }

  /** `weekday()` of the next day is one further round the week. */
  lemma NextWeekday(dt: Date)
    requires Valid(dt) && dt != Date(MaxYear, 12, 31)
    ensures Weekday(Next(dt)) == (Weekday(dt) + 1) % 7
  {
    NextOrdinal(dt);
    ModSucc(Ordinal(dt) + 6);
  }

  /** 1 January of year 1 is a Monday. */
  lemma FirstDay()
    ensures Valid(Date(1, 1, 1)) && Ordinal(Date(1, 1, 1)) == 1 && Weekday(Date(1, 1, 1)) == 0
  {
    assert DaysBeforeYear(1) == 0;
    assert DaysBeforeMonth(1, 1) == 0;
    assert (1 + 6) % 7 == 0;
  }

  /** 7 December 2023 is a Thursday. */
  lemma ThursdaySeventh()
    ensures Valid(Date(2023, 12, 7)) && Weekday(Date(2023, 12, 7)) == 3
  {
    var dt := Date(2023, 12, 7);
    assert !IsLeap(2023);
    assert DaysInMonth(2023, 12) == 31;
    assert Valid(dt);
    assert DaysBeforeYear(2023) == 738520;
    assert DaysBeforeMonth(2023, 12) == 334;
    assert Ordinal(dt) == 738861;
    assert 738867 % 7 == 3;
  }
}
