/** Time as integers. An instant is a count of milliseconds since the Unix
    epoch; a calendar day is the index of the day that contains it
    (local time is taken to be the epoch's time zone). Weeks start on
    Monday. Months are not computed from the Gregorian rules but read from
    a `MonthTable`, an abstract map from days to months. */
module Calendar {

  /** Milliseconds in one day. */
  const DayLength: int := 86_400_000

  /** `startOfDay`, `format(t, 'yyyy-MM-dd')`: the day that contains instant `t`. */
  function DayOf(t: int): int {
    t / DayLength
  }

  /** The first instant of day `d` (midnight). */
  function StartOfDay(d: int): int {
    d * DayLength
  }

  /** The last instant of day `d` (23:59:59.999). */
  function EndOfDay(d: int): int {
    StartOfDay(d + 1) - 1
  }

  /** An instant lies in day `d` exactly when it is between that day's first and last instant. */
  lemma DayOfBounds(t: int, d: int)
    ensures DayOf(t) == d <==> StartOfDay(d) <= t <= EndOfDay(d)
  {
  }

  lemma DayOfStart(d: int)
    ensures DayOf(StartOfDay(d)) == d && DayOf(EndOfDay(d)) == d
  {
    DayOfBounds(StartOfDay(d), d);
    DayOfBounds(EndOfDay(d), d);
  }

  /** Later instants never fall on earlier days. */
  lemma DayOfMonotone(s: int, t: int)
    requires s <= t
    ensures DayOf(s) <= DayOf(t)
  {
    DayOfBounds(s, DayOf(s));
    DayOfBounds(t, DayOf(t));
  }

  /** Midnight is a whole number of days since the epoch. */
  lemma StartOfDayIsMidnight(d: int)
    ensures StartOfDay(d) % DayLength == 0
  {
    DayOfStart(d);
  }

  /** `subDays(t, n)`: the same time of day, `n` days earlier. */
  function SubDays(t: int, n: int): (r: int)
    ensures DayOf(r) == DayOf(t) - n
  {
    DayOfBounds(t, DayOf(t));
    DayOfBounds(t - n * DayLength, DayOf(t) - n);
    t - n * DayLength
  }

  /** Position of day `d` in its week, Monday being 0. Day 0 (1 January 1970) was a Thursday. */
  function Weekday(d: int): (w: int)
    ensures 0 <= w < 7
  {
    (d + 3) % 7
  }

  /** `startOfWeek(d, { weekStartsOn: 1 })`: the Monday on or before day `d`. */
  function WeekStart(d: int): (r: int)
    ensures Weekday(r) == 0
    ensures r <= d < r + 7
  {
    d - Weekday(d)
  }

  /** Day 0 of month `m` is `monthStart(m)`; `monthOf(d)` is the month that contains day `d`. */
  datatype MonthTable = MonthTable(monthOf: int -> int, monthStart: int -> int)

  /** The table describes months as consecutive, non-empty runs of days. */
  ghost predicate ValidMonths(t: MonthTable) {
    && (forall m {:trigger MonthEnd(t, m)} :: MonthStart(t, m) <= MonthEnd(t, m))
    && (forall d {:trigger t.monthOf(d)} :: MonthStart(t, t.monthOf(d)) <= d <= MonthEnd(t, t.monthOf(d)))
  }

  /** The month that contains day `d`. */
  function MonthOf(t: MonthTable, d: int): int {
    t.monthOf(d)
  }

  /** `startOfMonth`: the first day of month `m`. */
  function MonthStart(t: MonthTable, m: int): int {
    t.monthStart(m)
  }

  /** `endOfMonth`: the last day of month `m`, the day before the next month starts. */
  function MonthEnd(t: MonthTable, m: int): int {
    t.monthStart(m + 1) - 1
  }

  /** In a valid table, month starts increase with the month number. */
  lemma {:induction false} MonthStartMonotone(t: MonthTable, m: int, n: int)
    requires ValidMonths(t)
    requires m < n
    ensures t.monthStart(m) < t.monthStart(n)
    decreases n - m
  {
    assert MonthStart(t, m) <= MonthEnd(t, m);
    if m + 1 < n {
      MonthStartMonotone(t, m + 1, n);
    }
  }

  /** In a valid table, a day belongs to month `m` exactly when it falls between the first and last day of `m`. */
  lemma MonthOfBounds(t: MonthTable, d: int, m: int)
    requires ValidMonths(t)
    ensures MonthOf(t, d) == m <==> MonthStart(t, m) <= d <= MonthEnd(t, m)
  {
    var k := t.monthOf(d);
    if k < m {
      MonthStartMonotone(t, k + 1, m + 1);
      if k + 1 < m { MonthStartMonotone(t, k + 1, m); }
    } else if k > m {
      MonthStartMonotone(t, m, k);
      if m + 1 < k { MonthStartMonotone(t, m + 1, k); }
    }
  }
}
