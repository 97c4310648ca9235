/** The proleptic Gregorian calendar and ISO weekdays (sections 3.2.1 and 3.2.2
    of ISO 8601:2004), without an upper or lower year. */
module Calendar {
  import opened Common

  datatype Date = Date(y: int, m: int, d: int)

  /** A local date and a second of that day. */
  datatype Moment = Moment(date: Date, tod: nat)

  const DAY := 86400

  /** Whether steps of length `k` from `n` towards zero end at zero. */
  predicate Divides(k: nat, n: int)
    requires k > 0
    decreases if n < 0 then -n else n
  {
    if n >= k then Divides(k, n - k) else if n + k <= 0 then Divides(k, n + k) else n == 0
  }

  predicate Leap(y: int) {
    Divides(4, y) && (!Divides(100, y) || Divides(400, y))
  }

  function MonthLength(y: int, m: int): int {
    if m == 2 then (if Leap(y) then 29 else 28)
    else if m == 4 || m == 6 || m == 9 || m == 11 then 30
    else 31
  }

  predicate ValidDate(a: Date) {
    1 <= a.m <= 12 && 1 <= a.d <= MonthLength(a.y, a.m)
  }

  predicate ValidMoment(a: Moment) {
    ValidDate(a.date) && a.tod < DAY
  }

  function YearLength(y: int): int {
    if Leap(y) then 366 else 365
  }

  /** Counted year by year from year 1, backwards for earlier years. */
  function DaysBeforeYear(y: int): int
    decreases if y > 1 then y - 1 else 1 - y
  {
    if y == 1 then 0
    else if y > 1 then DaysBeforeYear(y - 1) + YearLength(y - 1)
    else DaysBeforeYear(y + 1) - YearLength(y)
  }

  function DaysBeforeMonth(y: int, m: int): int
    decreases m
  {
    if m <= 1 then 0 else DaysBeforeMonth(y, m - 1) + MonthLength(y, m - 1)
  }

  /** The day number of a date; day 1 is Monday, January 1 of year 1. */
  function Ordinal(a: Date): int {
    DaysBeforeYear(a.y) + DaysBeforeMonth(a.y, a.m) + a.d
  }

  /** Days 1 to 7 are Monday to Sunday, and weekdays repeat every seven days. */
  function WeekdayOf(n: int): (r: int)
    ensures 1 <= r <= 7
    decreases if n > 7 then n else if n < 1 then 1 - n else 0
  {
    if n > 7 then WeekdayOf(n - 7) else if n < 1 then WeekdayOf(n + 7) else n
  }

  /** 1 is Monday, 7 is Sunday. */
  function Weekday(a: Date): (r: int)
    ensures 1 <= r <= 7
  {
    WeekdayOf(Ordinal(a))
  }

  function Instant(a: Moment): int {
    Ordinal(a.date) * DAY + a.tod
  }

  function NextDay(a: Date): Date {
    if a.d < MonthLength(a.y, a.m) then a.(d := a.d + 1)
    else if a.m < 12 then Date(a.y, a.m + 1, 1)
    else Date(a.y + 1, 1, 1)
  }

  function PreviousDay(a: Date): Date {
    if a.d > 1 then a.(d := a.d - 1)
    else if a.m > 1 then Date(a.y, a.m - 1, MonthLength(a.y, a.m - 1))
    else Date(a.y - 1, 12, 31)
  }

  function AddDays(a: Date, k: int): Date
    decreases if k < 0 then -k else k
  {
    if k == 0 then a else if k > 0 then AddDays(NextDay(a), k - 1) else AddDays(PreviousDay(a), k + 1)
  }

  /** The first day of the month `k` months away. */
  function MonthAway(y: int, m: int, k: int): Date
    decreases if k < 0 then -k else k
  {
    if k == 0 then Date(y, m, 1)
    else if k > 0 then (if m < 12 then MonthAway(y, m + 1, k - 1) else MonthAway(y + 1, 1, k - 1))
    else if m > 1 then MonthAway(y, m - 1, k + 1) else MonthAway(y - 1, 12, k + 1)
  }

  /** Calendar months, the day clamped to the length of the month reached. */
  function AddMonths(a: Date, k: int): Date {
    var b := MonthAway(a.y, a.m, k);
    b.(d := Min(a.d, MonthLength(b.y, b.m)))
  }

  function MonthIndex(a: Date): int {
    12 * a.y + a.m
  }

  // Day numbers.

  lemma NextYear(y: int)
    ensures DaysBeforeYear(y + 1) == DaysBeforeYear(y) + YearLength(y)
  {
  }

  lemma {:induction false} DividesMeansNoRemainder(k: nat, n: int)
    requires k == 4 || k == 100 || k == 400
    ensures Divides(k, n) <==> n % k == 0
    decreases if n < 0 then -n else n
  {
    if n >= k {
      DividesMeansNoRemainder(k, n - k);
      OneStepKeepsRemainder(k, n - k);
    } else if n + k <= 0 {
      DividesMeansNoRemainder(k, n + k);
      OneStepKeepsRemainder(k, n);
    }
  }

  lemma OneStepKeepsRemainder(k: nat, n: int)
    requires k == 4 || k == 100 || k == 400
    ensures n % k == 0 <==> (n + k) % k == 0
  {
    if k == 4 {
      assert (n + 4) % 4 == n % 4;
    } else if k == 100 {
      assert (n + 100) % 100 == n % 100;
    } else {
      assert (n + 400) % 400 == n % 400;
    }
  }

  /** The Gregorian leap rule in terms of remainders. */
  lemma LeapRule(y: int)
    ensures Leap(y) <==> y % 4 == 0 && (y % 100 != 0 || y % 400 == 0)
  {
    DividesMeansNoRemainder(4, y);
    DividesMeansNoRemainder(100, y);
    DividesMeansNoRemainder(400, y);
  }

  lemma MonthsOfYear(y: int)
    ensures DaysBeforeMonth(y, 12) + 31 == YearLength(y)
  {
    var leap := if Leap(y) then 1 else 0;
    assert DaysBeforeMonth(y, 3) == 59 + leap by {
      assert DaysBeforeMonth(y, 2) == 31;
    }
    assert DaysBeforeMonth(y, 5) == 120 + leap by {
      assert DaysBeforeMonth(y, 4) == 90 + leap;
    }
    assert DaysBeforeMonth(y, 7) == 181 + leap by {
      assert DaysBeforeMonth(y, 6) == 151 + leap;
    }
    assert DaysBeforeMonth(y, 9) == 243 + leap by {
      assert DaysBeforeMonth(y, 8) == 212 + leap;
    }
    assert DaysBeforeMonth(y, 11) == 304 + leap by {
      assert DaysBeforeMonth(y, 10) == 273 + leap;
    }
  }

  /** The next day is the next day number. */
  lemma NextDayIsNext(a: Date)
    requires ValidDate(a)
    ensures ValidDate(NextDay(a)) && Ordinal(NextDay(a)) == Ordinal(a) + 1
  {
    if a.d == MonthLength(a.y, a.m) && a.m == 12 {
      NextYear(a.y);
      MonthsOfYear(a.y);
      assert DaysBeforeMonth(a.y + 1, 1) == 0;
    } else if a.d == MonthLength(a.y, a.m) {
      assert DaysBeforeMonth(a.y, a.m + 1) == DaysBeforeMonth(a.y, a.m) + MonthLength(a.y, a.m);
    }
  }

  lemma PreviousThenNext(a: Date)
    requires ValidDate(a)
    ensures ValidDate(PreviousDay(a)) && NextDay(PreviousDay(a)) == a
  {
  }

  lemma PreviousDayIsPrevious(a: Date)
    requires ValidDate(a)
    ensures ValidDate(PreviousDay(a)) && Ordinal(PreviousDay(a)) == Ordinal(a) - 1
  {
    PreviousThenNext(a);
    NextDayIsNext(PreviousDay(a));
  }

  lemma {:induction false} NextWeekday(n: int)
    ensures WeekdayOf(n + 1) == if WeekdayOf(n) == 7 then 1 else WeekdayOf(n) + 1
    decreases if n > 7 then n else if n < 1 then 1 - n else 0
  {
    if n > 7 {
      NextWeekday(n - 7);
    } else if n < 1 {
      NextWeekday(n + 7);
    }
  }

  /** Adding days adds to the day number. */
  lemma {:induction false} AddDaysIsAddition(a: Date, k: int)
    requires ValidDate(a)
    ensures ValidDate(AddDays(a, k)) && Ordinal(AddDays(a, k)) == Ordinal(a) + k
    decreases if k < 0 then -k else k
  {
    if k > 0 {
      NextDayIsNext(a);
      AddDaysIsAddition(NextDay(a), k - 1);
    } else if k < 0 {
      PreviousDayIsPrevious(a);
      AddDaysIsAddition(PreviousDay(a), k + 1);
    }
  }

  // Months.

  lemma {:induction false} MonthsGrow(y: int, m: int, n: int)
    requires 1 <= m < n <= 12
    ensures DaysBeforeMonth(y, m) + MonthLength(y, m) <= DaysBeforeMonth(y, n)
    decreases n
  {
    if m < n - 1 {
      MonthsGrow(y, m, n - 1);
    }
  }

  lemma {:induction false} YearsGrow(y: int, z: int)
    requires y <= z
    ensures DaysBeforeYear(y) <= DaysBeforeYear(z)
    decreases z - y
  {
    if y < z {
      NextYear(y);
      YearsGrow(y + 1, z);
    }
  }

  lemma WithinYear(a: Date)
    requires ValidDate(a)
    ensures DaysBeforeYear(a.y) < Ordinal(a) <= DaysBeforeYear(a.y + 1)
  {
    NextYear(a.y);
    MonthsOfYear(a.y);
    if a.m < 12 {
      MonthsGrow(a.y, a.m, 12);
    }
    if a.m > 1 {
      MonthsGrow(a.y, 1, a.m);
    }
  }

  /** A date of a later month is a later day. */
  lemma LaterMonthIsLater(a: Date, b: Date)
    requires ValidDate(a) && ValidDate(b) && MonthIndex(a) < MonthIndex(b)
    ensures Ordinal(a) < Ordinal(b)
  {
    if a.y == b.y {
      MonthsGrow(a.y, a.m, b.m);
    } else {
      WithinYear(a);
      WithinYear(b);
      YearsGrow(a.y + 1, b.y);
    }
  }

  /** Different dates have different day numbers. */
  lemma OrdinalIsInjective(a: Date, b: Date)
    requires ValidDate(a) && ValidDate(b) && Ordinal(a) == Ordinal(b)
    ensures a == b
  {
    if MonthIndex(a) < MonthIndex(b) {
      LaterMonthIsLater(a, b);
    } else if MonthIndex(b) < MonthIndex(a) {
      LaterMonthIsLater(b, a);
    } else {
      assert a.y == b.y;
    }
  }

  lemma {:induction false} MonthAwayMoves(y: int, m: int, k: int)
    requires 1 <= m <= 12
    ensures var b := MonthAway(y, m, k); 1 <= b.m <= 12 && MonthIndex(b) == 12 * y + m + k && b.d == 1
    decreases if k < 0 then -k else k
  {
    if k > 0 {
      if m < 12 { MonthAwayMoves(y, m + 1, k - 1); } else { MonthAwayMoves(y + 1, 1, k - 1); }
    } else if k < 0 {
      if m > 1 { MonthAwayMoves(y, m - 1, k + 1); } else { MonthAwayMoves(y - 1, 12, k + 1); }
    }
  }

  /** Adding months moves the month index by exactly that many. */
  lemma AddMonthsMoves(a: Date, k: int)
    requires ValidDate(a)
    ensures ValidDate(AddMonths(a, k)) && MonthIndex(AddMonths(a, k)) == MonthIndex(a) + k
    ensures AddMonths(a, k).d == Min(a.d, MonthLength(AddMonths(a, k).y, AddMonths(a, k).m))
  {
    MonthAwayMoves(a.y, a.m, k);
  }

  /** Moving by months twice is moving by their sum. */
  lemma MonthAwayTwice(y: int, m: int, j: int, k: int)
    requires 1 <= m <= 12
    ensures var b := MonthAway(y, m, j); MonthAway(b.y, b.m, k) == MonthAway(y, m, j + k)
  {
    var b := MonthAway(y, m, j);
    MonthAwayMoves(y, m, j);
    MonthAwayMoves(b.y, b.m, k);
    MonthAwayMoves(y, m, j + k);
  }
}
