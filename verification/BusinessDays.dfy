/**
 * Business-day arithmetic and the dispute window of the penalty desk. An instant
 * is a number of milliseconds since 1970-01-01T00:00Z; weekends are the only
 * holidays.
 */
module BusinessDays {
  const DAY_MS := 86_400_000

  function Day(t: int): int {
    t / DAY_MS
  }

  function TimeOfDay(t: int): int {
    t % DAY_MS
  }

  /** Sunday is 0; the first day of the epoch is a Thursday. */
  function DayOfWeek(day: int): int {
    (day + 4) % 7
  }

  predicate IsWeekday(day: int) {
    DayOfWeek(day) != 0 && DayOfWeek(day) != 6
  }

  const HOUR_MS := 3_600_000

  /**
   * The weekends are the forty-eight hours from the beginning of 1970-01-03, a Saturday,
   * and those every 168 hours on and back.
   */
  predicate IsWeekend(t: int) {
    (t - 48 * HOUR_MS) % (168 * HOUR_MS) < 48 * HOUR_MS
  }

  lemma WeekendsIff(t: int)
    ensures IsWeekday(Day(t)) <==> !IsWeekend(t)
  {
    var day := Day(t);
    var week := (day - 2) / 7;
    assert day == 2 + 7 * week + (day - 2) % 7;
    var since := t - 48 * HOUR_MS - week * (168 * HOUR_MS);
    assert since == ((day - 2) % 7) * DAY_MS + TimeOfDay(t);
    WeekRemainder(t - 48 * HOUR_MS, week, since);
  }

  lemma WeekRemainder(t: int, week: int, since: int)
    requires t == week * (168 * HOUR_MS) + since && 0 <= since < 168 * HOUR_MS
    ensures t % (168 * HOUR_MS) == since
  {}

  /** Weekdays after day `a`, up to and including day `b`. */
  function Weekdays(a: int, b: int): nat
    requires a <= b
    decreases b - a
  {
    if a == b then 0 else Weekdays(a, b - 1) + (if IsWeekday(b) then 1 else 0)
  }

  /** Days from here to the next weekday. */
  function DaysToWeekday(day: int): (d: nat)
    ensures 1 <= d <= 3
  {
    if IsWeekday(day + 1) then 1 else if IsWeekday(day + 2) then 2 else 3
  }

  /** The day on which the `n`th weekday after `day` falls. */
  function NthWeekday(day: int, n: nat): int {
    if n == 0 then day else var before := NthWeekday(day, n - 1); before + DaysToWeekday(before)
  }

  function Add(from: int, n: nat): int {
    from + (NthWeekday(Day(from), n) - Day(from)) * DAY_MS
  }

  /** Whole days, rounded up, from one instant to a later one. */
  function DaysUp(from: int, until: int): nat
    requires from <= until
  {
    (until - from + DAY_MS - 1) / DAY_MS
  }

  function Between(from: int, until: int): nat {
    if until <= from then 0 else Weekdays(Day(from), Day(from) + DaysUp(from, until))
  }

  // ---- The loops ----

  /** The next weekday, and no weekday before it. */
  lemma NextWeekday(day: int)
    ensures IsWeekday(day + DaysToWeekday(day))
    ensures forall x :: day < x < day + DaysToWeekday(day) ==> !IsWeekday(x)
  {}

  method AddBusinessDays(from: int, n: nat) returns (d: int)
    ensures d == Add(from, n)
  {
    hide IsWeekday, DaysToWeekday;
    d := from;
    var added: nat := 0;
    ghost var k: nat := 0;
    ghost var last := Day(from);
    while added < n
      invariant added <= n && d == from + k * DAY_MS
      invariant last == NthWeekday(Day(from), added)
      invariant last <= Day(from) + k <= last + DaysToWeekday(last) - 1
      invariant added == n ==> Day(from) + k == last
      invariant forall x :: last < x <= Day(from) + k ==> !IsWeekday(x)
      decreases n - added, last + DaysToWeekday(last) - (Day(from) + k)
    {
      d := d + DAY_MS;
      k := k + 1;
      NextWeekday(last);
      if IsWeekday(Day(d)) {
        added := added + 1;
        last := Day(from) + k;
      }
    }
  }

  method BusinessDaysBetween(from: int, until: int) returns (count: nat)
    ensures count == Between(from, until)
  {
    if until <= from {
      return 0;
    }
    var d := from;
    count := 0;
    assert Weekdays(Day(from), Day(from)) == 0;
    ghost var k: nat := 0;
    while d < until
      invariant d == from + k * DAY_MS
      invariant d < until + DAY_MS
      invariant count == Weekdays(Day(from), Day(from) + k)
      decreases until - d
    {
      d := d + DAY_MS;
      k := k + 1;
      if IsWeekday(Day(d)) {
        count := count + 1;
      }
    }
  }

  // ---- Counting ----

  lemma {:induction false} WeekdaysSplit(a: int, b: int, c: int)
    requires a <= b <= c
    ensures Weekdays(a, c) == Weekdays(a, b) + Weekdays(b, c)
    decreases c - b
  {
    if b < c {
      WeekdaysSplit(a, b, c - 1);
    }
  }

  lemma NoWeekdays(a: int, b: int)
    requires a <= b && forall x :: a < x <= b ==> !IsWeekday(x)
    ensures Weekdays(a, b) == 0
    decreases b - a
  {
    hide IsWeekday;
    if a < b {
      NoWeekdays(a, b - 1);
    }
  }

  lemma {:induction false} NthWeekdayCounts(day: int, n: nat)
    ensures NthWeekday(day, n) >= day
    ensures Weekdays(day, NthWeekday(day, n)) == n
    ensures n > 0 ==> IsWeekday(NthWeekday(day, n))
  {
    hide IsWeekday, DaysToWeekday;
    if n > 0 {
      NthWeekdayCounts(day, n - 1);
      var before := NthWeekday(day, n - 1);
      var next := before + DaysToWeekday(before);
      NextWeekday(before);
      WeekdaysSplit(day, before, next);
      NoWeekdays(before, next - 1);
    }
  }

  lemma AddIsNthWeekday(from: int, n: nat)
    ensures Add(from, n) >= from
    ensures Day(Add(from, n)) == NthWeekday(Day(from), n) && TimeOfDay(Add(from, n)) == TimeOfDay(from)
  {
    NthWeekdayCounts(Day(from), n);
  }

  /** The result of adding is the earliest day with enough weekdays behind it, at the same time of day. */
  lemma AddIsLeast(from: int, n: nat)
    ensures var d := Add(from, n);
      && d >= from && TimeOfDay(d) == TimeOfDay(from)
      && Weekdays(Day(from), Day(d)) == n
      && (n > 0 ==> IsWeekday(Day(d)))
      && forall x :: Day(from) <= x < Day(d) ==> Weekdays(Day(from), x) < n
  {
    hide IsWeekday;
    AddIsNthWeekday(from, n);
    NthWeekdayCounts(Day(from), n);
    var a, b := Day(from), Day(Add(from, n));
    forall x | a <= x < b
      ensures Weekdays(a, x) < n
    {
      WeekdaysSplit(a, x, b - 1);
    }
  }

  /** The day after `until` is counted too, when `until` is later in its day than `from` and that day is a weekday. */
  function Extra(from: int, until: int): nat {
    if TimeOfDay(until) > TimeOfDay(from) && IsWeekday(Day(until) + 1) then 1 else 0
  }

  /**
   * What the counting loop counts: the weekdays after `from`'s day up to `until`'s
   * day, and one more when the time of day makes it step past `until`'s day.
   */
  lemma BetweenExact(from: int, until: int)
    requires from <= until
    ensures Day(from) <= Day(until)
    ensures Between(from, until) == Weekdays(Day(from), Day(until)) + Extra(from, until)
  {}

  /** The time of day does not matter exactly when `until` is no later in its day, or no weekday follows. */
  lemma TimeOfDayIgnoredIff(from: int, until: int)
    requires from <= until
    ensures Day(from) <= Day(until)
    ensures Between(from, until) == Weekdays(Day(from), Day(until)) <==>
      TimeOfDay(until) <= TimeOfDay(from) || !IsWeekday(Day(until) + 1)
  {
    hide Between, Weekdays, IsWeekday;
    BetweenExact(from, until);
  }

  /** Counting undoes adding, from any instant. */
  lemma BetweenUndoesAdd(from: int, n: nat)
    ensures Between(from, Add(from, n)) == n
  {
    AddIsNthWeekday(from, n);
    NthWeekdayCounts(Day(from), n);
  }

  /** Counts over adjoining spans add up exactly when the days stepped past balance. */
  lemma AdditiveIff(a: int, b: int, c: int)
    requires a <= b <= c
    ensures Between(a, b) + Between(b, c) == Between(a, c) <==> Extra(a, b) + Extra(b, c) == Extra(a, c)
    ensures TimeOfDay(a) == TimeOfDay(b) ==> Between(a, b) + Between(b, c) == Between(a, c)
  {
    hide IsWeekday, Between, Weekdays;
    BetweenExact(a, b);
    BetweenExact(b, c);
    BetweenExact(a, c);
    WeekdaysSplit(Day(a), Day(b), Day(c));
  }

  lemma {:induction false} NthWeekdayAdds(day: int, m: nat, n: nat)
    ensures NthWeekday(NthWeekday(day, m), n) == NthWeekday(day, m + n)
  {
    if n > 0 {
      NthWeekdayAdds(day, m, n - 1);
    }
  }

  /** Adding in two steps is adding once. */
  lemma AddAdds(from: int, m: nat, n: nat)
    ensures Add(Add(from, m), n) == Add(from, m + n)
  {
    AddIsNthWeekday(from, m);
    NthWeekdayAdds(Day(from), m, n);
  }

  /** From Friday, Saturday and Sunday the next weekday is Monday. */
  lemma WeekdayStep(day: int)
    ensures DaysToWeekday(day) == (if DayOfWeek(day) == 5 then 3 else if DayOfWeek(day) == 6 then 2 else 1)
    ensures DayOfWeek(day + DaysToWeekday(day)) == (if DayOfWeek(day) >= 5 then 1 else DayOfWeek(day) + 1)
    ensures 0 <= DayOfWeek(day) <= 6
  {}

  lemma NthWeekdayStep(day: int, n: nat, before: int)
    requires n > 0 && before == NthWeekday(day, n - 1)
    ensures NthWeekday(day, n) == before + DaysToWeekday(before)
  {}

  lemma FiveWeekdays(day: int)
    ensures NthWeekday(day, 5) == day + (if DayOfWeek(day) == 6 then 6 else if DayOfWeek(day) == 0 then 5 else 7)
  {
    hide DaysToWeekday, DayOfWeek, NthWeekday;
    var d: int := day;
    NoneYet(day);
    for i := 1 to 6
      invariant d == NthWeekday(day, i - 1)
      invariant 0 <= DayOfWeek(day) <= 6
      invariant i == 1 ==> d == day
      invariant i > 1 && DayOfWeek(day) == 0 ==> DayOfWeek(d) == i - 1 && d == day + i - 1
      invariant i > 1 && DayOfWeek(day) == 6 ==> DayOfWeek(d) == i - 1 && d == day + i
      invariant 1 < i <= 6 - DayOfWeek(day) && 1 <= DayOfWeek(day) <= 5 ==>
        DayOfWeek(d) == DayOfWeek(day) + i - 1 && d == day + i - 1
      invariant i > 1 && i > 6 - DayOfWeek(day) && 1 <= DayOfWeek(day) <= 5 ==>
        DayOfWeek(d) == DayOfWeek(day) + i - 6 && d == day + i + 1
    {
      WeekdayStep(d);
      NthWeekdayStep(day, i, d);
      d := d + DaysToWeekday(d);
    }
  }

  lemma NoneYet(day: int)
    ensures NthWeekday(day, 0) == day && 0 <= DayOfWeek(day) <= 6
  {}

  /** Five business days are one week exactly when the first day is a weekday. */
  lemma FiveDaysAreAWeekIff(from: int)
    ensures Add(from, 5) == from + 7 * DAY_MS <==> IsWeekday(Day(from))
  {
    hide DayOfWeek, NthWeekday;
    FiveWeekdays(Day(from));
    WeekdayStep(Day(from));
  }

  // ---- The dispute window ----

  const STATEMENT_BUSINESS_DAY := 4
  const DISPUTE_WINDOW_BUSINESS_DAYS := 10

  datatype WindowState = Upcoming | Open | Closing | Closed

  datatype Window = Window(statement: int, cutoff: int, businessDay: int, remaining: nat, state: WindowState)

  function Rank(s: WindowState): nat {
    match s
    case Upcoming => 0
    case Open => 1
    case Closing => 2
    case Closed => 3
  }

  /** `firstOfNext` is the midnight that begins the month after the penalty period. */
  function DisputeWindow(firstOfNext: int, now: int): Window {
    var statement := Add(firstOfNext - DAY_MS, STATEMENT_BUSINESS_DAY);
    var cutoff := Add(statement, DISPUTE_WINDOW_BUSINESS_DAYS);
    if now < statement then Window(statement, cutoff, 0, DISPUTE_WINDOW_BUSINESS_DAYS, Upcoming)
    else if now > cutoff then Window(statement, cutoff, 0, 0, Closed)
    else
      var remaining := Between(now, cutoff);
      Window(statement, cutoff, DISPUTE_WINDOW_BUSINESS_DAYS - remaining, remaining, if remaining <= 3 then Closing else Open)
  }

  /** The window runs for a fortnight from the fourth weekday of the month, midnight to midnight. */
  lemma WindowDates(firstOfNext: int, now: int)
    requires TimeOfDay(firstOfNext) == 0
    ensures var w := DisputeWindow(firstOfNext, now);
      && TimeOfDay(w.statement) == TimeOfDay(w.cutoff) == 0
      && IsWeekday(Day(w.statement)) && IsWeekday(Day(w.cutoff))
      && w.cutoff == w.statement + 14 * DAY_MS
      && Day(firstOfNext) - 1 <= Day(w.statement)
      && Weekdays(Day(firstOfNext) - 1, Day(w.statement)) == 4
      && Weekdays(Day(w.statement), Day(w.cutoff)) == 10
  {
    hide IsWeekday, Add, NthWeekday, Weekdays;
    var before := firstOfNext - DAY_MS;
    AddIsLeast(before, 4);
    var statement := Add(before, 4);
    AddIsLeast(statement, 10);
    FiveDaysAreAWeekIff(statement);
    FiveDaysAreAWeekIff(Add(statement, 5));
    AddIsLeast(statement, 5);
    AddAdds(statement, 5, 5);
  }

  /** Inside the window the time of day of `now` never counts, because the cutoff is a midnight. */
  lemma RemainingIsWeekdays(firstOfNext: int, now: int)
    requires TimeOfDay(firstOfNext) == 0
    ensures var w := DisputeWindow(firstOfNext, now);
      w.statement <= now <= w.cutoff ==>
        && Day(w.statement) <= Day(now) <= Day(w.cutoff)
        && w.remaining == Weekdays(Day(now), Day(w.cutoff))
        && w.remaining <= 10
  {
    hide IsWeekday, Add, Weekdays;
    WindowDates(firstOfNext, now);
    var w := DisputeWindow(firstOfNext, now);
    if w.statement <= now <= w.cutoff {
      WeekdaysSplit(Day(w.statement), Day(now), Day(w.cutoff));
    }
  }

  /** Inside the window, days gone and days left make ten; the last one is gone only at the instant of the cutoff. */
  lemma ElapsedPlusRemaining(firstOfNext: int, now: int)
    requires TimeOfDay(firstOfNext) == 0
    ensures var w := DisputeWindow(firstOfNext, now);
      w.state.Open? || w.state.Closing? ==>
        && w.businessDay >= 0
        && w.businessDay + w.remaining == DISPUTE_WINDOW_BUSINESS_DAYS
        && (w.remaining == 0 <==> now == w.cutoff)
  {
    hide IsWeekday, Add, Between;
    WindowDates(firstOfNext, now);
    RemainingIsWeekdays(firstOfNext, now);
    var w := DisputeWindow(firstOfNext, now);
  }

  /** As time goes on the days left never rise and the state only moves forward. */
  lemma WindowOnlyMovesOn(firstOfNext: int, now: int, later: int)
    requires TimeOfDay(firstOfNext) == 0 && now <= later
    ensures var w, v := DisputeWindow(firstOfNext, now), DisputeWindow(firstOfNext, later);
      && v.remaining <= w.remaining
      && Rank(w.state) <= Rank(v.state)
      && (v.state.Open? || v.state.Closing? ==> w.businessDay <= v.businessDay)
  {
    hide IsWeekday, Add, Between, Weekdays;
    RemainingIsWeekdays(firstOfNext, now);
    RemainingIsWeekdays(firstOfNext, later);
    var w, v := DisputeWindow(firstOfNext, now), DisputeWindow(firstOfNext, later);
    if w.statement <= now && later <= w.cutoff {
      WeekdaysSplit(Day(now), Day(later), Day(w.cutoff));
    }
  }

  /** The window opens on the statement date, starts to close seven business days later, and shuts after the cutoff. */
  lemma StatesByDate(firstOfNext: int, now: int)
    requires TimeOfDay(firstOfNext) == 0
    ensures var w := DisputeWindow(firstOfNext, now);
      && (w.state.Upcoming? <==> now < w.statement)
      && (w.state.Open? <==> w.statement <= now < Add(w.statement, 7))
      && (w.state.Closing? <==> Add(w.statement, 7) <= now <= w.cutoff)
      && (w.state.Closed? <==> now > w.cutoff)
      && w.statement < Add(w.statement, 7) < w.cutoff
  {
    hide IsWeekday, Add, Between, Weekdays;
    WindowDates(firstOfNext, now);
    RemainingIsWeekdays(firstOfNext, now);
    var w := DisputeWindow(firstOfNext, now);
    var closing := Add(w.statement, 7);
    AddIsLeast(w.statement, 7);
    AddAdds(w.statement, 7, 3);
    AddIsLeast(closing, 3);
    if w.statement <= now <= w.cutoff {
      WeekdaysSplit(Day(w.statement), Day(now), Day(w.cutoff));
      if Day(closing) <= Day(now) {
        WeekdaysSplit(Day(w.statement), Day(closing), Day(now));
      }
    }
  }

}
