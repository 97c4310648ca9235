/** Repeat rules: `_calc_next_occurrence`, `is_valid_repeat_rule` and the two
    catch-up loops (bot/db/crud/reminders.py, bot/services/tasks.py). */
module Recurrence {
  import opened Common
  import opened Outcomes
  import opened Calendar

  /** A rule as its text parses; `Unparsable` covers every other text. */
  datatype Rule =
    | Daily
    | Weekdays
    | Weekly(days: seq<int>)
    | Monthly(day: int)
    | Every(count: int, unit: char)
    | Unparsable

  /** `is_valid_repeat_rule` */
  predicate ValidRule(rule: Rule) {
    match rule
    case Daily => true
    case Weekdays => true
    case Weekly(days) => days != [] && forall d :: d in days ==> 1 <= d <= 7
    case Monthly(day) => 1 <= day <= 31
    case Every(count, unit) => count > 0 && (unit == 'd' || unit == 'w' || unit == 'm')
    case Unparsable => false
  }

  const LOOP_BOUND := 10000

  /** How many weekend days start at a day number, at most two. */
  function WeekendLength(n: int): (r: nat)
    ensures r <= 2
  {
    if WeekdayOf(n) == 6 then 2 else if WeekdayOf(n) == 7 then 1 else 0
  }

  /** The first day from a date on that is not in a weekend. */
  function SkipWeekend(a: Date): Date {
    AddDays(a, WeekendLength(Ordinal(a)))
  }

  /** Whether the day `offset` days after a day number has a wanted weekday. */
  predicate Falls(n: int, days: seq<int>, offset: nat) {
    WeekdayOf(n + offset) in days
  }

  /** The first offset from `offset` to 7 that reaches a wanted weekday, or 7. */
  function WeeklyOffset(n: int, days: seq<int>, offset: nat): (r: nat)
    requires 1 <= offset <= 8
    ensures 1 <= r <= 7
    decreases 8 - offset
  {
    if offset == 8 then 7
    else if Falls(n, days, offset) then offset
    else WeeklyOffset(n, days, offset + 1)
  }

  function OnDay(a: Date, day: int): Date {
    if 1 <= day <= MonthLength(a.y, a.m) then a.(d := day) else a.(d := MonthLength(a.y, a.m))
  }

  function NextDate(a: Date, rule: Rule): Option<Date> {
    match rule
    case Daily => Some(AddDays(a, 1))
    case Weekdays => Some(SkipWeekend(AddDays(a, 1)))
    case Weekly(days) => Some(AddDays(a, WeeklyOffset(Ordinal(a), days, 1)))
    case Monthly(day) => Some(OnDay(AddMonths(a, 1), day))
    case Every(count, unit) =>
      if unit == 'd' then Some(AddDays(a, count))
      else if unit == 'w' then Some(AddDays(a, 7 * count))
      else if unit == 'm' then Some(AddMonths(a, count))
      else None
    case Unparsable => None
  }

  function Next(a: Moment, rule: Rule): Option<Moment> {
    match NextDate(a.date, rule)
    case None => None
    case Some(date) => Some(a.(date := date))
  }

  method NextWorkingDay(a: Date) returns (next: Date)
    requires ValidDate(a)
    ensures next == SkipWeekend(AddDays(a, 1))
  {
    next := AddDays(a, 1);
    AddDaysIsAddition(a, 1);
    while Weekday(next) >= 6
      invariant ValidDate(next) && SkipWeekend(next) == SkipWeekend(AddDays(a, 1))
      decreases WeekendLength(Ordinal(next))
    {
      SkipOne(next);
      next := AddDays(next, 1);
    }
  }

  /** One weekend day less to skip. */
  lemma SkipOne(a: Date)
    requires ValidDate(a) && Weekday(a) >= 6
    ensures ValidDate(AddDays(a, 1)) && SkipWeekend(AddDays(a, 1)) == SkipWeekend(a)
    ensures WeekendLength(Ordinal(AddDays(a, 1))) < WeekendLength(Ordinal(a))
  {
    var k := WeekendLength(Ordinal(a));
    NextWeekday(Ordinal(a));
    AddDaysIsAddition(a, 1);
    AddDaysTwice(a, 1, k - 1);
  }

  lemma AddDaysTwice(a: Date, j: int, k: int)
    requires ValidDate(a)
    ensures AddDays(AddDays(a, j), k) == AddDays(a, j + k)
  {
    AddDaysIsAddition(a, j);
    AddDaysIsAddition(AddDays(a, j), k);
    AddDaysIsAddition(a, j + k);
    OrdinalIsInjective(AddDays(AddDays(a, j), k), AddDays(a, j + k));
  }

  method NextListedDay(a: Date, days: seq<int>) returns (next: Date)
    requires ValidDate(a)
    ensures next == AddDays(a, WeeklyOffset(Ordinal(a), days, 1))
  {
    for offset := 1 to 8
      invariant WeeklyOffset(Ordinal(a), days, 1) == WeeklyOffset(Ordinal(a), days, offset)
    {
      var candidate := AddDays(a, offset);
      TryOffset(a, days, offset);
      if Weekday(candidate) in days {
        return candidate;
      }
    }
    return AddDays(a, 7);
  }

  lemma TryOffset(a: Date, days: seq<int>, offset: nat)
    requires ValidDate(a) && 1 <= offset <= 7
    ensures WeeklyOffset(Ordinal(a), days, offset)
         == if Weekday(AddDays(a, offset)) in days then offset else WeeklyOffset(Ordinal(a), days, offset + 1)
  {
    AddDaysIsAddition(a, offset);
  }

  /** `_calc_next_occurrence` */
  method CalcNextOccurrence(a: Moment, rule: Rule) returns (r: Option<Moment>)
    requires ValidDate(a.date)
    ensures r == Next(a, rule)
    ensures r.Some? ==> ValidDate(r.value.date)
  {
    NextIsValid(a, rule);
    match rule {
      case Daily =>
        return Some(a.(date := AddDays(a.date, 1)));
      case Weekdays =>
        var next := NextWorkingDay(a.date);
        return Some(a.(date := next));
      case Weekly(days) =>
        var next := NextListedDay(a.date, days);
        return Some(a.(date := next));
      case Monthly(day) =>
        var next := AddMonths(a.date, 1);
        if 1 <= day <= MonthLength(next.y, next.m) {
          return Some(a.(date := next.(d := day)));
        }
        return Some(a.(date := next.(d := MonthLength(next.y, next.m))));
      case Every(count, unit) =>
        if unit == 'd' { return Some(a.(date := AddDays(a.date, count))); }
        if unit == 'w' { return Some(a.(date := AddDays(a.date, 7 * count))); }
        if unit == 'm' { return Some(a.(date := AddMonths(a.date, count))); }
        return None;
      case Unparsable =>
        return None;
    }
  }

  // Orbits and catching up.

  /** One step of a recurrence; `By(rule)` is the step of a rule. */
  type Stride = Moment -> Option<Moment>

  function By(rule: Rule): Stride {
    m => Next(m, rule)
  }

  /** The k-th occurrence after a moment. */
  function Orbit(f: Stride, a: Moment, k: nat): Option<Moment> {
    if k == 0 then Some(a)
    else match Orbit(f, a, k - 1)
      case None => None
      case Some(b) => f(b)
  }

  /** The first occurrence after `now` within a number of steps: None when the
      rule yields none, and an exception when the steps run out. */
  function CatchUp(f: Stride, a: Moment, now: int, steps: nat): Outcome<Option<Moment>>
    decreases steps
  {
    if steps == 0 then Raised
    else match f(a)
      case None => Returned(None)
      case Some(b) => if Instant(b) > now then Returned(Some(b)) else CatchUp(f, b, now, steps - 1)
  }

  /** `next_future_occurrence` in bot/db/crud/reminders.py. */
  method NextFutureOccurrence(current: Moment, rule: Rule, now: int) returns (r: Outcome<Option<Moment>>)
    requires ValidDate(current.date)
    ensures r == CatchUp(By(rule), current, now, LOOP_BOUND)
  {
    var candidate := current;
    for i := 0 to LOOP_BOUND
      invariant ValidDate(candidate.date)
      invariant CatchUp(By(rule), candidate, now, LOOP_BOUND - i) == CatchUp(By(rule), current, now, LOOP_BOUND)
    {
      var following := CalcNextOccurrence(candidate, rule);
      if following.None? || Instant(following.value) > now {
        return Returned(following);
      }
      candidate := following.value;
    }
    return Raised;
  }

  /** `_next_future_occurrence` in bot/services/tasks.py. */
  method NextTaskOccurrence(current: Moment, rule: Rule, now: int) returns (r: Outcome<Option<Moment>>)
    requires ValidDate(current.date)
    ensures r == CatchUp(By(rule), current, now, LOOP_BOUND)
  {
    var candidate := Some(current);
    for i := 0 to LOOP_BOUND
      invariant candidate.Some? && ValidDate(candidate.value.date)
      invariant CatchUp(By(rule), candidate.value, now, LOOP_BOUND - i) == CatchUp(By(rule), current, now, LOOP_BOUND)
    {
      var following := CalcNextOccurrence(candidate.value, rule);
      candidate := following;
      if candidate.None? || Instant(candidate.value) > now {
        return Returned(candidate);
      }
    }
    return Raised;
  }

  // What one step does.

  lemma NextIsValid(a: Moment, rule: Rule)
    requires ValidDate(a.date)
    ensures Next(a, rule).Some? ==> ValidDate(Next(a, rule).value.date) && Next(a, rule).value.tod == a.tod
  {
    match rule
    case Weekdays => NextWorkingDate(a.date);
    case Weekly(days) => AddDaysIsAddition(a.date, WeeklyOffset(Ordinal(a.date), days, 1));
    case Monthly(_) => AddMonthsMoves(a.date, 1);
    case Every(count, unit) =>
      AddDaysIsAddition(a.date, count);
      AddDaysIsAddition(a.date, 7 * count);
      AddMonthsMoves(a.date, count);
    case _ => AddDaysIsAddition(a.date, 1);
  }

  /** Every accepted rule moves to a later day at the same time of day. */
  lemma ValidRuleAdvances(a: Moment, rule: Rule)
    requires ValidDate(a.date) && ValidRule(rule)
    ensures Next(a, rule).Some?
    ensures Next(a, rule).value.tod == a.tod
    ensures Ordinal(Next(a, rule).value.date) > Ordinal(a.date)
    ensures Instant(Next(a, rule).value) >= Instant(a) + DAY
  {
    NextIsValid(a, rule);
    match rule
    case Weekdays => NextWorkingDate(a.date);
    case Weekly(days) => AddDaysIsAddition(a.date, WeeklyOffset(Ordinal(a.date), days, 1));
    case Monthly(_) =>
      AddMonthsMoves(a.date, 1);
      LaterMonthIsLater(a.date, Next(a, rule).value.date);
    case Every(count, unit) =>
      AddDaysIsAddition(a.date, count);
      AddDaysIsAddition(a.date, 7 * count);
      AddMonthsMoves(a.date, count);
      if unit == 'm' {
        LaterMonthIsLater(a.date, AddMonths(a.date, count));
      }
    case _ => AddDaysIsAddition(a.date, 1);
  }

  /** The rules with a fixed step move by exactly that step. */
  lemma FixedStepsAreExact(a: Date, count: int)
    requires ValidDate(a)
    ensures Ordinal(NextDate(a, Daily).value) == Ordinal(a) + 1
    ensures Ordinal(NextDate(a, Every(count, 'd')).value) == Ordinal(a) + count
    ensures Ordinal(NextDate(a, Every(count, 'w')).value) == Ordinal(a) + 7 * count
    ensures var b := NextDate(a, Every(count, 'm')).value;
      ValidDate(b) && MonthIndex(b) == MonthIndex(a) + count && b.d == Min(a.d, MonthLength(b.y, b.m))
  {
    AddDaysIsAddition(a, 1);
    AddDaysIsAddition(a, count);
    AddDaysIsAddition(a, 7 * count);
    AddMonthsMoves(a, count);
  }

  /** Skipping reaches a working day, and only weekend days are skipped. */
  lemma WeekendIsSkipped(n: int)
    ensures WeekdayOf(n + WeekendLength(n)) <= 5
    ensures forall j :: n <= j < n + WeekendLength(n) ==> WeekdayOf(j) >= 6
  {
    NextWeekday(n);
    NextWeekday(n + 1);
  }

  /** `weekdays` gives the least later working day, within three days. */
  lemma WeekdaysIsLeast(a: Date)
    requires ValidDate(a)
    ensures var b := NextDate(a, Weekdays).value;
      && ValidDate(b) && Ordinal(a) < Ordinal(b) <= Ordinal(a) + 3 && Weekday(b) <= 5
      && forall n :: Ordinal(a) < n < Ordinal(b) ==> WeekdayOf(n) >= 6
  {
    NextWorkingDate(a);
    WeekendIsSkipped(Ordinal(a) + 1);
  }

  lemma NextWorkingDate(a: Date)
    requires ValidDate(a)
    ensures var b := NextDate(a, Weekdays).value;
      ValidDate(b) && Ordinal(b) == Ordinal(a) + 1 + WeekendLength(Ordinal(a) + 1)
  {
    AddDaysIsAddition(a, 1);
    AddDaysIsAddition(AddDays(a, 1), WeekendLength(Ordinal(a) + 1));
  }

  lemma {:induction false} WeeklyOffsetIsLeast(n: int, days: seq<int>, offset: nat)
    requires 1 <= offset <= 8
    ensures forall k :: offset <= k < WeeklyOffset(n, days, offset) ==> !Falls(n, days, k)
    ensures Falls(n, days, WeeklyOffset(n, days, offset)) || forall k :: offset <= k <= 7 ==> !Falls(n, days, k)
    decreases 8 - offset
  {
    if offset < 8 && !Falls(n, days, offset) {
      WeeklyOffsetIsLeast(n, days, offset + 1);
    }
  }

  /** Some day of the next week has any given weekday. */
  lemma {:induction false} WeekdayIsReached(n: int, day: int) returns (k: nat)
    requires 1 <= day <= 7
    ensures 1 <= k <= 7 && WeekdayOf(n + k) == day
    decreases (day - WeekdayOf(n) + 6) % 7
  {
    NextWeekday(n);
    var w := WeekdayOf(n);
    if day == (if w == 7 then 1 else w + 1) {
      k := 1;
    } else {
      var later := WeekdayIsReached(n + 1, day);
      k := later + 1;
    }
  }

  /** `weekly:` gives the least later date on a listed weekday, within a week. */
  lemma WeeklyIsLeast(a: Date, days: seq<int>)
    requires ValidDate(a) && ValidRule(Weekly(days))
    ensures var b := NextDate(a, Weekly(days)).value;
      ValidDate(b) && LeastListed(Ordinal(a), Ordinal(b), days)
  {
    var r := WeeklyOffset(Ordinal(a), days, 1);
    ListedDayIsReached(Ordinal(a), days);
    AddDaysIsAddition(a, r);
  }

  predicate LeastListed(n: int, b: int, days: seq<int>) {
    n < b <= n + 7 && WeekdayOf(b) in days && forall m :: n < m < b ==> WeekdayOf(m) !in days
  }

  lemma ListedDayIsReached(n: int, days: seq<int>)
    requires ValidRule(Weekly(days))
    ensures LeastListed(n, n + WeeklyOffset(n, days, 1), days)
  {
    WeeklyOffsetIsLeast(n, days, 1);
    assert days[0] in days;
    var k := WeekdayIsReached(n, days[0]);
    assert Falls(n, days, k);
    forall m | n < m < n + WeeklyOffset(n, days, 1) ensures WeekdayOf(m) !in days {
      assert !Falls(n, days, m - n);
    }
  }

  /** `monthly:N` repeated k times lands in the k-th month on day N, or on the
      last day of a shorter month, and never drifts. */
  lemma {:induction false} MonthlyNeverDrifts(a: Moment, day: int, k: nat)
    requires ValidDate(a.date) && 1 <= day <= 31
    ensures Orbit(By(Monthly(day)), a, k).Some?
    ensures var b := Orbit(By(Monthly(day)), a, k).value;
      && ValidDate(b.date) && b.tod == a.tod
      && MonthIndex(b.date) == MonthIndex(a.date) + k
      && (k > 0 ==> b.date.d == Min(day, MonthLength(b.date.y, b.date.m)))
  {
    if k > 0 {
      MonthlyNeverDrifts(a, day, k - 1);
      AddMonthsMoves(Orbit(By(Monthly(day)), a, k - 1).value.date, 1);
    }
  }

  /** The length of the month `months` after a date's. */
  function LengthAfter(a: Date, months: int): int {
    var b := MonthAway(a.y, a.m, months);
    MonthLength(b.y, b.m)
  }

  /** The day of a date cut down to every month met in `k` steps of `count`. */
  function Shortest(a: Date, count: int, k: nat): int {
    if k == 0 then a.d else Min(Shortest(a, count, k - 1), LengthAfter(a, count * k))
  }

  /** `every:Nm` repeated k times lands N times k months on, on the day that every
      month met on the way has allowed. */
  lemma {:induction false} EveryMonthsExactly(a: Moment, count: int, k: nat)
    requires ValidDate(a.date)
    ensures Orbit(By(Every(count, 'm')), a, k).Some?
    ensures var b := Orbit(By(Every(count, 'm')), a, k).value;
      && ValidDate(b.date) && b.tod == a.tod
      && MonthIndex(b.date) == MonthIndex(a.date) + count * k
      && b.date.(d := 1) == MonthAway(a.date.y, a.date.m, count * k)
      && b.date.d == Shortest(a.date, count, k)
  {
    if k > 0 {
      EveryMonthsExactly(a, count, k - 1);
      var b := Orbit(By(Every(count, 'm')), a, k - 1).value;
      OneStepOfMonths(a.date, b.date, count, count * (k - 1));
      assert count * (k - 1) + count == count * k;
      MonthAwayMoves(a.date.y, a.date.m, count * k);
    }
  }

  lemma OneStepOfMonths(a: Date, b: Date, count: int, months: int)
    requires ValidDate(a) && ValidDate(b) && b.(d := 1) == MonthAway(a.y, a.m, months)
    ensures ValidDate(AddMonths(b, count))
    ensures AddMonths(b, count) == MonthAway(a.y, a.m, months + count).(d := Min(b.d, LengthAfter(a, months + count)))
  {
    AddMonthsMoves(b, count);
    MonthAwayTwice(a.y, a.m, months, count);
  }

  /** Whether some month met before the k-th step is shorter than the day that
      adding all months at once would give. */
  ghost predicate MeetsShorterMonth(a: Date, count: int, k: nat) {
    exists j :: 1 <= j < k && LengthAfter(a, count * j) < Min(a.d, LengthAfter(a, count * k))
  }

  lemma {:induction false} ShortestBelow(a: Date, count: int, k: nat, limit: int)
    requires limit <= a.d
    ensures Shortest(a, count, k) < limit <==> exists j :: 1 <= j <= k && LengthAfter(a, count * j) < limit
  {
    if k > 0 {
      ShortestBelow(a, count, k - 1, limit);
    }
  }

  /** `every:Nm` drifts, on any start date and for any N, exactly when it meets a
      shorter month on the way. */
  lemma EveryMonthsDriftsExactly(a: Moment, count: int, k: nat)
    requires ValidDate(a.date)
    ensures Orbit(By(Every(count, 'm')), a, k).Some?
    ensures Orbit(By(Every(count, 'm')), a, k).value.date != AddMonths(a.date, count * k)
       <==> MeetsShorterMonth(a.date, count, k)
  {
    var limit := Min(a.date.d, LengthAfter(a.date, count * k));
    EveryMonthsExactly(a, count, k);
    ShortestBelow(a.date, count, k, limit);
    ShortestIsWithin(a.date, count, k);
    if Shortest(a.date, count, k) < limit {
      var j :| 1 <= j <= k && LengthAfter(a.date, count * j) < limit;
      assert j < k;
    }
  }

  lemma ShortestIsWithin(a: Date, count: int, k: nat)
    requires ValidDate(a)
    ensures Shortest(a, count, k) <= a.d && (k > 0 ==> Shortest(a, count, k) <= LengthAfter(a, count * k))
    ensures k == 0 ==> LengthAfter(a, count * k) >= a.d
  {
    if k > 0 {
      ShortestIsWithin(a, count, k - 1);
    }
  }

  /** Up to the 28th it never drifts. */
  lemma EarlyDaysNeverDrift(a: Moment, count: int, k: nat)
    requires ValidDate(a.date) && a.date.d <= 28
    ensures Orbit(By(Every(count, 'm')), a, k) == Some(a.(date := AddMonths(a.date, count * k)))
  {
    EveryMonthsExactly(a, count, k);
    EveryMonthsDriftsExactly(a, count, k);
  }

  /** Witness: from the 31st of January `every:1m` keeps the 28th of February in
      March, where `monthly:31` returns to the 31st. */
  lemma EveryMonthDrifts()
    ensures var a := Moment(Date(2023, 1, 31), 0);
      && MeetsShorterMonth(a.date, 1, 2)
      && Orbit(By(Every(1, 'm')), a, 2) == Some(Moment(Date(2023, 3, 28), 0))
      && Orbit(By(Monthly(31)), a, 2) == Some(Moment(Date(2023, 3, 31), 0))
  {
    var a, b := Moment(Date(2023, 1, 31), 0), Moment(Date(2023, 2, 28), 0);
    LeapRule(2023);
    assert MonthAway(2023, 1, 1) == Date(2023, 2, 1) && MonthAway(2023, 2, 1) == Date(2023, 3, 1);
    MonthAwayTwice(2023, 1, 1, 1);
    assert LengthAfter(a.date, 1 * 1) == 28 && LengthAfter(a.date, 1 * 2) == 31;
    assert Orbit(By(Every(1, 'm')), a, 0) == Some(a) && Orbit(By(Monthly(31)), a, 0) == Some(a);
    assert Orbit(By(Every(1, 'm')), a, 1) == Some(b);
    assert Orbit(By(Monthly(31)), a, 1) == Some(b);
  }

  // What catching up returns, for any stride.

  lemma {:induction false} OrbitShift(f: Stride, a: Moment, k: nat)
    requires f(a).Some?
    ensures Orbit(f, a, k + 1) == Orbit(f, f(a).value, k)
  {
    if k > 0 {
      OrbitShift(f, a, k - 1);
    } else {
      assert Orbit(f, a, 0) == Some(a);
    }
  }

  predicate Behind(m: Option<Moment>, now: int) {
    m.Some? && Instant(m.value) <= now
  }

  predicate AllBehind(f: Stride, a: Moment, now: int, k: nat) {
    forall j :: 1 <= j <= k ==> Behind(Orbit(f, a, j), now)
  }

  /** The k-th occurrence is the first that is not in the past, if it exists. */
  predicate FirstAhead(f: Stride, a: Moment, now: int, k: nat) {
    k >= 1 && !Behind(Orbit(f, a, k), now) && AllBehind(f, a, now, k - 1)
  }

  lemma AllBehindShift(f: Stride, a: Moment, now: int, k: nat)
    requires Behind(f(a), now) && AllBehind(f, f(a).value, now, k)
    ensures AllBehind(f, a, now, k + 1)
  {
    forall j | 1 <= j <= k + 1 ensures Behind(Orbit(f, a, j), now) {
      OrbitShift(f, a, j - 1);
      if j == 1 {
        assert Orbit(f, f(a).value, 0) == f(a);
      }
    }
  }

  /** A returned value is the first member of the orbit that is not in the past
      (None if the rule yields none there); the loop gives up only when all the
      members it may look at are in the past. */
  lemma {:induction false} CatchUpIsFirst(f: Stride, a: Moment, now: int, steps: nat) returns (k: nat)
    ensures CatchUp(f, a, now, steps).Raised? ==> AllBehind(f, a, now, steps)
    ensures CatchUp(f, a, now, steps).Returned? ==>
      k <= steps && FirstAhead(f, a, now, k) && CatchUp(f, a, now, steps).value == Orbit(f, a, k)
    ensures !CatchUp(f, a, now, steps).Died?
    decreases steps
  {
    k := 1;
    if steps > 0 {
      assert Orbit(f, a, 0) == Some(a) && Orbit(f, a, 1) == f(a);
      if Behind(f(a), now) {
        var b := f(a).value;
        var later := CatchUpIsFirst(f, b, now, steps - 1);
        if CatchUp(f, b, now, steps - 1).Returned? {
          AllBehindShift(f, a, now, later - 1);
          OrbitShift(f, a, later);
          k := later + 1;
        } else {
          AllBehindShift(f, a, now, steps - 1);
        }
      }
    }
  }

  /** The loop raises exactly when all the members it may look at are past. */
  lemma GivesUpExactly(a: Moment, rule: Rule, now: int)
    ensures CatchUp(By(rule), a, now, LOOP_BOUND).Raised? <==> AllBehind(By(rule), a, now, LOOP_BOUND)
  {
    var k := CatchUpIsFirst(By(rule), a, now, LOOP_BOUND);
    if CatchUp(By(rule), a, now, LOOP_BOUND).Returned? {
      assert !Behind(Orbit(By(rule), a, k), now);
    }
  }

  /** One step moves at least a day ahead at the same time of day. */
  predicate Advances(f: Stride, a: Moment) {
    var b := f(a);
    b.Some? && ValidDate(b.value.date) && b.value.tod == a.tod && Instant(b.value) >= Instant(a) + DAY
  }

  lemma {:induction false} OrbitGrows(f: Stride, a: Moment, k: nat)
    requires ValidDate(a.date) && forall m: Moment :: ValidDate(m.date) ==> Advances(f, m)
    ensures Orbit(f, a, k).Some? && ValidDate(Orbit(f, a, k).value.date)
    ensures Orbit(f, a, k).value.tod == a.tod
    ensures Instant(Orbit(f, a, k).value) >= Instant(a) + k * DAY
  {
    if k > 0 {
      OrbitGrows(f, a, k - 1);
      assert Advances(f, Orbit(f, a, k - 1).value);
    }
  }

  /** Every orbit of an accepted rule is endless and gains a day per step. */
  lemma ValidOrbitGrows(a: Moment, rule: Rule, k: nat)
    requires ValidDate(a.date) && ValidRule(rule)
    ensures Orbit(By(rule), a, k).Some? && ValidDate(Orbit(By(rule), a, k).value.date)
    ensures Orbit(By(rule), a, k).value.tod == a.tod
    ensures Instant(Orbit(By(rule), a, k).value) >= Instant(a) + k * DAY
  {
    forall m: Moment | ValidDate(m.date) ensures Advances(By(rule), m) {
      ValidRuleAdvances(m, rule);
      NextIsValid(m, rule);
    }
    OrbitGrows(By(rule), a, k);
  }

  /** For an accepted rule the loop finds an occurrence strictly in the future
      whenever now is less than 10000 days after the start. */
  lemma ValidRuleCatchesUp(a: Moment, rule: Rule, now: int)
    requires ValidDate(a.date) && ValidRule(rule) && now < Instant(a) + LOOP_BOUND * DAY
    ensures CatchUp(By(rule), a, now, LOOP_BOUND).Returned? && CatchUp(By(rule), a, now, LOOP_BOUND).value.Some?
    ensures var b := CatchUp(By(rule), a, now, LOOP_BOUND).value.value;
      Instant(b) > now && b.tod == a.tod && ValidDate(b.date)
  {
    CatchesUp(a, rule, now, LOOP_BOUND);
  }

  lemma CatchesUp(a: Moment, rule: Rule, now: int, steps: nat)
    requires ValidDate(a.date) && ValidRule(rule) && now < Instant(a) + steps * DAY
    ensures steps > 0 ==> CatchUp(By(rule), a, now, steps).Returned? && CatchUp(By(rule), a, now, steps).value.Some?
    ensures steps > 0 ==>
      var b := CatchUp(By(rule), a, now, steps).value.value;
      Instant(b) > now && b.tod == a.tod && ValidDate(b.date)
  {
    if steps > 0 {
      var k := CatchUpIsFirst(By(rule), a, now, steps);
      ValidOrbitGrows(a, rule, steps);
      assert !Behind(Orbit(By(rule), a, steps), now);
      ValidOrbitGrows(a, rule, k);
    }
  }
}
