/** The reports page: nutrient chart rows per day, week or month, the
    current logging streak, and the averages put into the shared summary. */
module Reports {
  import opened Wrappers
  import opened Sequences
  import opened Nutrition
  import opened Calendar
  import opened MealLog

  datatype Period = Day | Week | Month

  /** The three tabs of the page. */
  datatype Tab = Daily | Weekly | Monthly

  /** The instants `intervalStart` and `intervalEnd` of one chart bucket, both inclusive. */
  datatype Bucket = Bucket(start: int, end: int)

  /** One `AggregatedData` row. The name is the bucket's start instant, which the
      page formats as the day, week or month name. */
  datatype ChartRow = ChartRow(name: int, values: Nutrients)

  // ---------------------------------------------------------------------------
  // Buckets

  /** A week bucket from its Monday: `intervalStart` to `endOfWeek(intervalStart)`. */
  function WeekBucket(monday: int): Bucket {
    Bucket(StartOfDay(monday), EndOfDay(monday + 6))
  }

  /** A month bucket: `intervalStart` to `endOfMonth(intervalStart)`. */
  function MonthBucket(months: MonthTable, m: int): Bucket {
    Bucket(StartOfDay(MonthStart(months, m)), EndOfDay(MonthEnd(months, m)))
  }

  /** `eachDayOfInterval` from day `first` to day `last`, each start paired
      with itself as end: bucket `i` begins at the midnight of the `i`-th day
      after `first` and ends at that same instant. */
  function DayBuckets(first: int, last: int): (bs: seq<Bucket>)
    ensures |bs| == if first <= last then last - first + 1 else 0
    ensures forall i :: 0 <= i < |bs| ==>
      && bs[i] == Bucket(StartOfDay(first + i), StartOfDay(first + i))
      && DayOf(bs[i].start) == first + i
  {
    if first <= last then
      var bs := seq(last - first + 1, i requires 0 <= i <= last - first => Bucket(StartOfDay(first + i), StartOfDay(first + i)));
      assert forall i :: 0 <= i < |bs| ==> DayOf(bs[i].start) == first + i by {
        forall i | 0 <= i < |bs| ensures DayOf(bs[i].start) == first + i {
          assert bs[i].start == StartOfDay(first + i);
          DayOfStart(first + i);
        }
      }
      bs
    else []
  }

  /** `eachWeekOfInterval` with weeks starting on Monday, from the week of day
      `first` to the week of day `last`: every bucket runs from a Monday's
      midnight to the end of the following Sunday, each starts right after the
      previous one ends, and together they cover every day from `first` to `last`. */
  function WeekBuckets(first: int, last: int): (bs: seq<Bucket>)
    ensures var w0, w1 := WeekStart(first), WeekStart(last);
      |bs| == if w0 <= w1 then (w1 - w0) / 7 + 1 else 0
    ensures forall i :: 0 <= i < |bs| ==> bs[i] == WeekBucket(WeekStart(first) + 7 * i)
    ensures WeekRangeTiles(first, last, bs)
  {
    var w0, w1 := WeekStart(first), WeekStart(last);
    var bs := if w0 <= w1 then seq((w1 - w0) / 7 + 1, i => WeekBucket(w0 + 7 * i)) else [];
    WeekRangeIsTiling(first, last, bs);
    bs
  }

  /** Every bucket runs from a Monday's midnight to the end of the following
      Sunday; each starts right after the previous one ends; and when
      `first <= last` the first bucket starts no later than day `first` and
      the last ends no earlier than day `last`. */
  ghost predicate WeekRangeTiles(first: int, last: int, bs: seq<Bucket>) {
    && (forall i :: 0 <= i < |bs| ==>
          && Weekday(DayOf(bs[i].start)) == 0
          && bs[i].start == StartOfDay(DayOf(bs[i].start))
          && bs[i].end == EndOfDay(DayOf(bs[i].start) + 6))
    && (forall i, j :: 0 <= i && j == i + 1 && j < |bs| ==> bs[j].start == bs[i].end + 1)
    && (first <= last ==>
          && |bs| >= 1
          && bs[0].start <= StartOfDay(first)
          && EndOfDay(last) <= bs[|bs| - 1].end)
  }

  /** The week buckets from the week of `first` to the week of `last`, one after the other, tile those days. */
  lemma WeekRangeIsTiling(first: int, last: int, bs: seq<Bucket>)
    requires var w0, w1 := WeekStart(first), WeekStart(last);
      && |bs| == (if w0 <= w1 then (w1 - w0) / 7 + 1 else 0)
      && forall i :: 0 <= i < |bs| ==> bs[i] == WeekBucket(w0 + 7 * i)
    ensures WeekRangeTiles(first, last, bs)
  {
    var w0, w1 := WeekStart(first), WeekStart(last);
    forall i | 0 <= i < |bs|
      ensures Weekday(DayOf(bs[i].start)) == 0
      ensures bs[i].start == StartOfDay(DayOf(bs[i].start))
      ensures bs[i].end == EndOfDay(DayOf(bs[i].start) + 6)
    {
      DayOfStart(w0 + 7 * i);
    }
    if first <= last {
      assert (w1 - w0) % 7 == 0;
      assert bs[|bs| - 1] == WeekBucket(w1);
    }
  }

  /** `eachMonthOfInterval` from the month of day `first` to the month of day
      `last`. For a valid month table every bucket is the whole month that
      contains its first day, each starts right after the previous one ends,
      and together they cover every day from `first` to `last`. */
  function MonthBuckets(months: MonthTable, first: int, last: int): (bs: seq<Bucket>)
    ensures var m0, m1 := MonthOf(months, first), MonthOf(months, last);
      |bs| == if m0 <= m1 then m1 - m0 + 1 else 0
    ensures forall i :: 0 <= i < |bs| ==> bs[i] == MonthBucket(months, MonthOf(months, first) + i)
    ensures ValidMonths(months) ==> MonthRangeTiles(months, first, last, bs)
  {
    var m0, m1 := MonthOf(months, first), MonthOf(months, last);
    var bs := if m0 <= m1 then seq(m1 - m0 + 1, i => MonthBucket(months, m0 + i)) else [];
    assert ValidMonths(months) ==> MonthRangeTiles(months, first, last, bs) by {
      if ValidMonths(months) {
        MonthRangeIsTiling(months, first, last, bs);
      }
    }
    bs
  }

  /** Every bucket is the whole month that contains its first day; each
      starts right after the previous one ends; and when `first <= last` the
      first bucket starts no later than day `first` and the last ends no
      earlier than day `last`. */
  ghost predicate MonthRangeTiles(months: MonthTable, first: int, last: int, bs: seq<Bucket>) {
    && (forall i :: 0 <= i < |bs| ==>
          var d := DayOf(bs[i].start);
          d == MonthStart(months, MonthOf(months, d)) && bs[i] == MonthBucket(months, MonthOf(months, d)))
    && (forall i, j :: 0 <= i && j == i + 1 && j < |bs| ==> bs[j].start == bs[i].end + 1)
    && (first <= last ==>
          && |bs| >= 1
          && bs[0].start <= StartOfDay(first)
          && EndOfDay(last) <= bs[|bs| - 1].end)
  }

  /** The buckets of the months of `first` through `last`, one after the other, tile those days. */
  lemma MonthRangeIsTiling(months: MonthTable, first: int, last: int, bs: seq<Bucket>)
    requires ValidMonths(months)
    requires var m0, m1 := MonthOf(months, first), MonthOf(months, last);
      && |bs| == (if m0 <= m1 then m1 - m0 + 1 else 0)
      && forall i :: 0 <= i < |bs| ==> bs[i] == MonthBucket(months, m0 + i)
    ensures MonthRangeTiles(months, first, last, bs)
  {
    var m0, m1 := MonthOf(months, first), MonthOf(months, last);
    MonthOfBounds(months, first, m0);
    MonthOfBounds(months, last, m1);
    if first <= last && m1 < m0 {
      MonthStartMonotone(months, m1 + 1, m0);
    }
    forall i | 0 <= i < |bs|
      ensures var d := DayOf(bs[i].start);
        d == MonthStart(months, MonthOf(months, d)) && bs[i] == MonthBucket(months, MonthOf(months, d))
    {
      MonthBucketIsMonth(months, m0 + i);
    }
    forall i, j | 0 <= i && j == i + 1 && j < |bs| ensures bs[j].start == bs[i].end + 1 {
      assert bs[i] == MonthBucket(months, m0 + i);
      assert bs[j] == MonthBucket(months, m0 + i + 1);
    }
    if first <= last {
      assert bs[0] == MonthBucket(months, m0);
      assert bs[|bs| - 1] == MonthBucket(months, m1);
    }
  }

  /** The `intervals` of the reports page: the buckets of [startDate, endDate]
      at the given granularity. Bucket `i` is the `i`-th day from the day of
      `startDate`, the `i`-th week from its Monday, or the `i`-th month from
      its month, up to the day, week or month of `endDate`. */
  function Buckets(months: MonthTable, startDate: int, endDate: int, period: Period): (bs: seq<Bucket>)
    ensures period == Day ==> var d0, d1 := DayOf(startDate), DayOf(endDate);
      && |bs| == (if d0 <= d1 then d1 - d0 + 1 else 0)
      && forall i :: 0 <= i < |bs| ==> bs[i] == Bucket(StartOfDay(d0 + i), StartOfDay(d0 + i))
    ensures period == Week ==> var w0, w1 := WeekStart(DayOf(startDate)), WeekStart(DayOf(endDate));
      && |bs| == (if w0 <= w1 then (w1 - w0) / 7 + 1 else 0)
      && forall i :: 0 <= i < |bs| ==> bs[i] == WeekBucket(w0 + 7 * i)
    ensures period == Month ==> var m0, m1 := MonthOf(months, DayOf(startDate)), MonthOf(months, DayOf(endDate));
      && |bs| == (if m0 <= m1 then m1 - m0 + 1 else 0)
      && forall i :: 0 <= i < |bs| ==> bs[i] == MonthBucket(months, m0 + i)
  {
    match period
    case Day => DayBuckets(DayOf(startDate), DayOf(endDate))
    case Week => WeekBuckets(DayOf(startDate), DayOf(endDate))
    case Month => MonthBuckets(months, DayOf(startDate), DayOf(endDate))
  }

  /** For days, weeks, and months of a valid month table, the buckets start at
      midnights, in increasing order; when the interval is not reversed there
      is at least one, the first starts no later than `startDate` and the last
      no later than `endDate`. */
  lemma BucketsOrdered(months: MonthTable, startDate: int, endDate: int, period: Period)
    requires period != Month || ValidMonths(months)
    ensures OrderedCover(Buckets(months, startDate, endDate, period), startDate, endDate)
  {
    match period
    case Day => DayBucketsOrdered(startDate, endDate);
    case Week => WeekBucketsOrdered(startDate, endDate);
    case Month => MonthBucketsOrdered(months, startDate, endDate);
  }

  /** Buckets start at midnights in increasing order; when the interval is not
      reversed there is one, the first starts no later than `startDate` and
      the last no later than `endDate`. */
  ghost predicate OrderedCover(bs: seq<Bucket>, startDate: int, endDate: int) {
    && (forall i :: 0 <= i < |bs| ==> bs[i].start == StartOfDay(DayOf(bs[i].start)))
    && (forall i, j :: 0 <= i < j < |bs| ==> bs[i].start < bs[j].start)
    && (DayOf(startDate) <= DayOf(endDate) ==>
          && |bs| >= 1
          && bs[0].start <= startDate
          && bs[|bs| - 1].start <= endDate)
  }

  /** Day buckets are ordered and cover the interval. */
  lemma DayBucketsOrdered(startDate: int, endDate: int)
    ensures OrderedCover(DayBuckets(DayOf(startDate), DayOf(endDate)), startDate, endDate)
  {
    var bs := DayBuckets(DayOf(startDate), DayOf(endDate));
    DayOfBounds(startDate, DayOf(startDate));
    DayOfBounds(endDate, DayOf(endDate));
    forall i, j | 0 <= i < j < |bs| ensures bs[i].start < bs[j].start {
      assert bs[i].start == StartOfDay(DayOf(startDate) + i) && bs[j].start == StartOfDay(DayOf(startDate) + j);
    }
  }

  /** Week buckets are ordered and cover the interval. */
  lemma WeekBucketsOrdered(startDate: int, endDate: int)
    ensures OrderedCover(WeekBuckets(DayOf(startDate), DayOf(endDate)), startDate, endDate)
  {
    var bs := WeekBuckets(DayOf(startDate), DayOf(endDate));
    DayOfBounds(startDate, DayOf(startDate));
    var last := WeekStart(DayOf(endDate));
    if DayOf(startDate) <= DayOf(endDate) {
      assert bs[|bs| - 1] == WeekBucket(last);
      DayOfBounds(endDate, DayOf(endDate));
    }
    forall i, j | 0 <= i < j < |bs| ensures bs[i].start < bs[j].start {
      assert bs[i].start == StartOfDay(WeekStart(DayOf(startDate)) + 7 * i);
      assert bs[j].start == StartOfDay(WeekStart(DayOf(startDate)) + 7 * j);
    }
  }

  /** Month buckets of a valid table are ordered and cover the interval. */
  lemma MonthBucketsOrdered(months: MonthTable, startDate: int, endDate: int)
    requires ValidMonths(months)
    ensures OrderedCover(MonthBuckets(months, DayOf(startDate), DayOf(endDate)), startDate, endDate)
  {
    var first, last := DayOf(startDate), DayOf(endDate);
    var bs := MonthBuckets(months, first, last);
    var m0 := MonthOf(months, first);
    DayOfBounds(startDate, first);
    MonthBucketStartsIncrease(months, m0, bs);
    if first <= last {
      var m1 := MonthOf(months, last);
      assert bs[|bs| - 1] == MonthBucket(months, m1);
      assert MonthStart(months, m1) <= last;
      DayOfBounds(endDate, last);
    }
  }

  /** Consecutive month buckets of a valid table start at midnights, later ones later. */
  lemma MonthBucketStartsIncrease(months: MonthTable, m0: int, bs: seq<Bucket>)
    requires ValidMonths(months)
    requires forall i :: 0 <= i < |bs| ==> bs[i] == MonthBucket(months, m0 + i)
    ensures forall i :: 0 <= i < |bs| ==> bs[i].start == StartOfDay(DayOf(bs[i].start))
    ensures forall i, j :: 0 <= i < j < |bs| ==> bs[i].start < bs[j].start
  {
    forall i | 0 <= i < |bs| ensures bs[i].start == StartOfDay(DayOf(bs[i].start)) {
      DayOfStart(MonthStart(months, m0 + i));
    }
    forall i, j | 0 <= i < j < |bs| ensures bs[i].start < bs[j].start {
      MonthStartMonotone(months, m0 + i, m0 + j);
    }
  }

  /** A month bucket starts at the midnight of the first day of its month. */
  lemma MonthBucketIsMonth(months: MonthTable, m: int)
    requires ValidMonths(months)
    ensures var d := DayOf(MonthBucket(months, m).start);
      d == MonthStart(months, m) && MonthOf(months, d) == m
  {
    DayOfStart(MonthStart(months, m));
    MonthOfBounds(months, MonthStart(months, m), m);
  }

  // ---------------------------------------------------------------------------
  // Rows

  /** `mealDate >= intervalStart && mealDate <= intervalEnd`. */
  predicate InBucket(m: LoggedMeal, b: Bucket) {
    b.start <= m.loggedAt <= b.end
  }

  /** `mealsInInterval`: the meals inside the bucket, in log order. */
  function MealsIn(meals: seq<LoggedMeal>, b: Bucket): (r: seq<LoggedMeal>)
    ensures forall m :: m in r <==> m in meals && InBucket(m, b)
  {
    Filter(meals, m => InBucket(m, b))
  }

  /** A day bucket only holds meals logged at exactly its midnight. */
  lemma DayBucketHoldsOnlyMidnight(months: MonthTable, startDate: int, endDate: int, i: int, m: LoggedMeal)
    requires 0 <= i < |Buckets(months, startDate, endDate, Day)|
    ensures InBucket(m, Buckets(months, startDate, endDate, Day)[i])
            <==> m.loggedAt == StartOfDay(DayOf(startDate) + i)
  {
  }

  /** The distinct calendar days on which meals were logged
      (`new Set(meals.map(m => format(m.loggedAt, 'yyyy-MM-dd')))`). */
  function LogDays(meals: seq<LoggedMeal>): (days: set<int>)
    ensures forall i :: 0 <= i < |meals| ==> DayOf(meals[i].loggedAt) in days
  {
    if meals == [] then {}
    else
      var init := meals[..|meals| - 1];
      assert forall i :: 0 <= i < |init| ==> init[i] == meals[i];
      LogDays(init) + {DayOf(meals[|meals| - 1].loggedAt)}
  }

  /** There are no more distinct logged days than meals, and at least one
      once a meal has been logged. */
  lemma {:induction false} LogDaysCount(meals: seq<LoggedMeal>)
    ensures |LogDays(meals)| <= |meals|
    ensures meals != [] ==> |LogDays(meals)| >= 1
  {
    if meals != [] {
      var init := meals[..|meals| - 1];
      var d := DayOf(meals[|meals| - 1].loggedAt);
      LogDaysCount(init);
      var earlier := LogDays(init);
      if d in earlier {
        assert earlier + {d} == earlier;
      }
    }
  }

  /** A day is a log day exactly when some meal was logged on it. */
  lemma {:induction false} LogDaysMembership(meals: seq<LoggedMeal>, d: int)
    ensures d in LogDays(meals) <==> exists i :: 0 <= i < |meals| && DayOf(meals[i].loggedAt) == d
  {
    if meals != [] {
      var init := meals[..|meals| - 1];
      LogDaysMembership(init, d);
      if d in LogDays(init) {
        var i :| 0 <= i < |init| && DayOf(init[i].loggedAt) == d;
        assert meals[i] == init[i];
      }
    }
  }

  /** `divisor`: 1 for days; for weeks and months the number of distinct days
      with a logged meal, or 1 when there is none. Never 0, and never more than
      the number of meals averaged. */
  function Divisor(inBucket: seq<LoggedMeal>, period: Period): (d: nat)
    ensures d >= 1
    ensures period == Day || inBucket == [] ==> d == 1
    ensures period != Day && inBucket != [] ==> d == |LogDays(inBucket)| && d <= |inBucket|
  {
    if period == Day then 1
    else
      var daysWithLogs := |LogDays(inBucket)|;
      LogDaysCount(inBucket);
      if daysWithLogs == 0 then 1 else daysWithLogs
  }

  /** The `n` consecutive days starting with day `lo`. */
  function DaysFrom(lo: int, n: nat): (r: set<int>)
    ensures |r| == n
    ensures forall x :: x in r <==> lo <= x < lo + n
  {
    if n == 0 then {} else DaysFrom(lo, n - 1) + {lo + n - 1}
  }

  /** The meals of a week bucket fall on at most seven distinct days. */
  lemma WeekDivisorAtMostSeven(meals: seq<LoggedMeal>, monday: int)
    ensures Divisor(MealsIn(meals, WeekBucket(monday)), Week) <= 7
  {
    var inBucket := MealsIn(meals, WeekBucket(monday));
    var days := LogDays(inBucket);
    var week := DaysFrom(monday, 7);
    forall d | d in days ensures d in week {
      LogDaysMembership(inBucket, d);
      var i :| 0 <= i < |inBucket| && DayOf(inBucket[i].loggedAt) == d;
      var t := inBucket[i].loggedAt;
      assert inBucket[i] in inBucket;
      DayOfStart(monday);
      DayOfStart(monday + 6);
      DayOfMonotone(StartOfDay(monday), t);
      DayOfMonotone(t, EndOfDay(monday + 6));
    }
    SubsetCardinality(days, week);
  }

  /** One chart row: the meals of the bucket summed field by field, divided by
      the divisor, and rounded (iron to a tenth). The row is named by its
      bucket's start, and a bucket without meals gives a row of zeros. */
  function Row(meals: seq<LoggedMeal>, b: Bucket, period: Period): (r: ChartRow)
    ensures r.name == b.start
    ensures MealsIn(meals, b) == [] ==> r.values == Zero
  {
    var inBucket := MealsIn(meals, b);
    var totals := Total(Profiles(inBucket));
    var divisor := Divisor(inBucket, period) as real;
    assert inBucket == [] ==> RoundForChart(Divide(totals, divisor)) == Zero by {
      if inBucket == [] {
        assert Profiles(inBucket) == [];
        RoundedAverageOfZero(divisor);
      }
    }
    ChartRow(b.start, RoundForChart(Divide(totals, divisor)))
  }

  /** Every field of a row is `Math.round(sum / divisor)`, where `sum` is that
      field summed over the bucket's meals and `divisor` the bucket's divisor;
      iron is `Math.round(sum / divisor * 10) / 10`. */
  lemma RowIsRoundedAverage(meals: seq<LoggedMeal>, b: Bucket, period: Period, k: Nutrient, sum: real, divisor: nat)
    requires sum == FieldSum(Profiles(MealsIn(meals, b)), k)
    requires divisor == Divisor(MealsIn(meals, b), period)
    ensures divisor >= 1
    ensures var average := sum / divisor as real;
      Get(Row(meals, b, period).values, k) == if k == Iron then RoundTenth(average) else JsRound(average) as real
  {
    var inBucket := MealsIn(meals, b);
    var totals := Total(Profiles(inBucket));
    var d := divisor as real;
    var avg := Divide(totals, d);
    assert Get(avg, k) == Get(totals, k) / d;
    match k
    case Calories => case Protein => case Carbs => case Fats => case Fiber =>
    case Sodium => case Sugar => case Potassium => case VitaminC => case Calcium => case Iron =>
  }

  /** The averaging is per logged day: meals of a week or month bucket that
      fall on two distinct days and total 4000 kcal give a row of 2000 kcal,
      whatever the length of the period. */
  lemma AveragePerLoggedDay(meals: seq<LoggedMeal>, b: Bucket, period: Period)
    requires period != Day
    requires |LogDays(MealsIn(meals, b))| == 2
    requires FieldSum(Profiles(MealsIn(meals, b)), Calories) == 4000.0
    ensures Get(Row(meals, b, period).values, Calories) == 2000.0
  {
    var divisor := Divisor(MealsIn(meals, b), period);
    assert divisor == 2;
    RowIsRoundedAverage(meals, b, period, Calories, 4000.0, divisor);
    JsRoundOfExactQuotient(4000.0, 2.0, 2000);
  }

  /** The week and month filter: some rounded calories, protein, carbs or fats is positive. */
  predicate HasIntake(r: ChartRow): (b: bool)
    ensures b ==> r.values != Zero
  {
    r.values.calories > 0.0 || r.values.protein > 0.0 || r.values.carbs > 0.0 || r.values.fats > 0.0
  }

  /** One row per bucket, in bucket order. */
  function Rows(meals: seq<LoggedMeal>, bs: seq<Bucket>, period: Period): seq<ChartRow> {
    seq(|bs|, i requires 0 <= i < |bs| => Row(meals, bs[i], period))
  }

  /** `aggregateDataByPeriod`: the row of every bucket for days; for weeks and
      months, exactly the rows that show some intake, in bucket order. */
  function Aggregate(months: MonthTable, meals: seq<LoggedMeal>, startDate: int, endDate: int, period: Period): (r: seq<ChartRow>)
    ensures var bs := Buckets(months, startDate, endDate, period);
      var all := Rows(meals, bs, period);
      && |r| <= |bs|
      && (period == Day ==> r == all && forall i :: 0 <= i < |r| ==> r[i].name == bs[i].start)
      && (period != Day ==> r == Filter(all, HasIntake))
      && (period != Day ==>
            && (forall i :: 0 <= i < |r| ==> HasIntake(r[i]))
            && (forall i :: 0 <= i < |all| && HasIntake(all[i]) ==> all[i] in r)
            && (forall x :: x in r ==> x in all))
  {
    var rows := Rows(meals, Buckets(months, startDate, endDate, period), period);
    if period == Day then rows else Filter(rows, HasIntake)
  }

  /** An empty log yields no week or month rows. */
  lemma EmptyLogNoRows(months: MonthTable, startDate: int, endDate: int, period: Period)
    requires period != Day
    ensures Aggregate(months, [], startDate, endDate, period) == []
  {
    var rows := Rows([], Buckets(months, startDate, endDate, period), period);
    forall i | 0 <= i < |rows| ensures !HasIntake(rows[i]) {
    }
    FilterDropsAll(rows, HasIntake);
  }

  // ---------------------------------------------------------------------------
  // The chart

  /** The earliest `loggedAt` of a non-empty log, by the reduce that keeps the smaller of each pair. */
  function Earliest(meals: seq<LoggedMeal>): (t: int)
    requires meals != []
    ensures exists i :: 0 <= i < |meals| && meals[i].loggedAt == t
    ensures forall i :: 0 <= i < |meals| ==> t <= meals[i].loggedAt
  {
    if |meals| == 1 then meals[0].loggedAt
    else
      var earliest := Earliest(meals[..|meals| - 1]);
      assert forall i :: 0 <= i < |meals| - 1 ==> meals[..|meals| - 1][i] == meals[i];
      if meals[|meals| - 1].loggedAt < earliest then meals[|meals| - 1].loggedAt else earliest
  }

  /** `chartData` at clock reading `now`: nothing for an empty log; seven
      rows, for six days ago through today, on the daily tab; every week or
      month from the first logged meal up to now that shows some intake on
      the other two. */
  function ChartData(months: MonthTable, meals: seq<LoggedMeal>, now: int, tab: Tab): (r: seq<ChartRow>)
    ensures meals == [] ==> r == []
    ensures meals != [] && tab == Daily ==>
      |r| == 7 && forall i :: 0 <= i < 7 ==> r[i].name == StartOfDay(DayOf(now) - 6 + i)
    ensures tab != Daily ==> forall x :: x in r ==> HasIntake(x)
    ensures meals != [] ==> match tab
      case Daily => r == Aggregate(months, meals, SubDays(now, 6), now, Day)
      case Weekly => r == Aggregate(months, meals, Earliest(meals), now, Week)
      case Monthly => r == Aggregate(months, meals, Earliest(meals), now, Month)
  {
    if |meals| == 0 then []
    else match tab
      case Daily => Aggregate(months, meals, SubDays(now, 6), now, Day)
      case Weekly => Aggregate(months, meals, Earliest(meals), now, Week)
      case Monthly => Aggregate(months, meals, Earliest(meals), now, Month)
  }

  /** Each field of the `i`-th daily row is the rounded sum of that field
      over the meals in the bucket of the `i`-th of the last seven days: a day
      divides by one. */
  lemma DailyChartRowIsDaySum(months: MonthTable, meals: seq<LoggedMeal>, now: int, i: int, k: Nutrient)
    requires meals != []
    requires 0 <= i < 7
    ensures var day := StartOfDay(DayOf(now) - 6 + i);
      var sum := FieldSum(Profiles(MealsIn(meals, Bucket(day, day))), k);
      Get(ChartData(months, meals, now, Daily)[i].values, k) == if k == Iron then RoundTenth(sum) else JsRound(sum) as real
  {
    var bs := Buckets(months, SubDays(now, 6), now, Day);
    var day := StartOfDay(DayOf(now) - 6 + i);
    assert ChartData(months, meals, now, Daily) == Rows(meals, bs, Day);
    assert bs[i] == Bucket(day, day);
    DayRowIsSum(meals, bs[i], k);
  }

  /** A day row divides by one: each field is the rounded sum over the bucket's meals. */
  lemma DayRowIsSum(meals: seq<LoggedMeal>, b: Bucket, k: Nutrient)
    ensures var sum := FieldSum(Profiles(MealsIn(meals, b)), k);
      Get(Row(meals, b, Day).values, k) == if k == Iron then RoundTenth(sum) else JsRound(sum) as real
  {
    var sum := FieldSum(Profiles(MealsIn(meals, b)), k);
    RowIsRoundedAverage(meals, b, Day, k, sum, 1);
    assert sum / 1.0 == sum;
  }

  /** The weekly or monthly chart shows the row of its bucket `n` exactly
      when that row shows some intake. */
  lemma ChartShowsBucket(months: MonthTable, meals: seq<LoggedMeal>, now: int, tab: Tab, period: Period, n: nat)
    requires meals != []
    requires (tab == Weekly && period == Week) || (tab == Monthly && period == Month)
    requires n < |Buckets(months, Earliest(meals), now, period)|
    ensures var row := Row(meals, Buckets(months, Earliest(meals), now, period)[n], period);
      row in ChartData(months, meals, now, tab) <==> HasIntake(row)
  {
    var bs := Buckets(months, Earliest(meals), now, period);
    var rows := Rows(meals, bs, period);
    assert rows[n] == Row(meals, bs[n], period);
    assert ChartData(months, meals, now, tab) == Filter(rows, HasIntake);
  }

  /** The weekly chart shows the row of the week `n` weeks after the week of
      the first logged meal, for each week bucket up to the current week,
      exactly when that row shows some intake. */
  lemma WeeklyChartShowsWeek(months: MonthTable, meals: seq<LoggedMeal>, now: int, n: nat)
    requires meals != []
    requires n < |Buckets(months, Earliest(meals), now, Week)|
    ensures var row := Row(meals, WeekBucket(WeekStart(DayOf(Earliest(meals))) + 7 * n), Week);
      row in ChartData(months, meals, now, Weekly) <==> HasIntake(row)
  {
    ChartShowsBucket(months, meals, now, Weekly, Week, n);
  }

  /** The monthly chart shows the row of the month `n` months after the month
      of the first logged meal, for each month bucket up to the current
      month, exactly when that row shows some intake. */
  lemma MonthlyChartShowsMonth(months: MonthTable, meals: seq<LoggedMeal>, now: int, n: nat)
    requires meals != []
    requires n < |Buckets(months, Earliest(meals), now, Month)|
    ensures var row := Row(meals, MonthBucket(months, MonthOf(months, DayOf(Earliest(meals))) + n), Month);
      row in ChartData(months, meals, now, Monthly) <==> HasIntake(row)
  {
    var bs := Buckets(months, Earliest(meals), now, Month);
    assert bs[n] == MonthBucket(months, MonthOf(months, DayOf(Earliest(meals))) + n);
    ChartShowsBucket(months, meals, now, Monthly, Month, n);
  }

  /** As written, the daily chart counts only meals logged at exactly midnight:
      a log with no midnight entry charts seven all-zero days. */
  lemma DailyChartIgnoresMealsAfterMidnight(months: MonthTable, meals: seq<LoggedMeal>, now: int)
    requires meals != []
    requires forall i :: 0 <= i < |meals| ==> meals[i].loggedAt % DayLength != 0
    ensures var rows := ChartData(months, meals, now, Daily);
      |rows| == 7 && forall i :: 0 <= i < 7 ==> rows[i].values == Zero
  {
    var bs := Buckets(months, SubDays(now, 6), now, Day);
    var rows := ChartData(months, meals, now, Daily);
    assert rows == Rows(meals, bs, Day);
    forall i | 0 <= i < 7 ensures rows[i].values == Zero {
      assert rows[i] == Row(meals, bs[i], Day);
      StartOfDayIsMidnight(DayOf(bs[i].start));
      MidnightBucketMissesMeals(meals, bs[i]);
    }
  }

  /** A bucket that is the single instant of a midnight holds no meal logged at another time. */
  lemma MidnightBucketMissesMeals(meals: seq<LoggedMeal>, b: Bucket)
    requires forall i :: 0 <= i < |meals| ==> meals[i].loggedAt % DayLength != 0
    requires b.start % DayLength == 0 && b.end == b.start
    ensures MealsIn(meals, b) == []
  {
    forall j | 0 <= j < |meals| ensures !InBucket(meals[j], b) {
      assert meals[j].loggedAt % DayLength != 0;
    }
    FilterDropsAll(meals, m => InBucket(m, b));
  }

  // ---------------------------------------------------------------------------
  // The streak

  ghost predicate StrictlyDescending(s: seq<int>) {
    forall i, j :: 0 <= i < j < |s| ==> s[i] > s[j]
  }

  /** Inserts day `d` into a strictly descending list of days, if absent. */
  function InsertDescending(s: seq<int>, d: int): (r: seq<int>)
    requires StrictlyDescending(s)
    ensures StrictlyDescending(r)
    ensures forall x :: x in r <==> x in s || x == d
  {
    if s == [] then [d]
    else if d == s[0] then s
    else if d > s[0] then [d] + s
    else
      var rest := InsertDescending(s[1..], d);
      var r := [s[0]] + rest;
      assert StrictlyDescending(r) by {
        forall i, j | 0 <= i < j < |r| ensures r[i] > r[j] {
          assert r[j] == rest[j - 1] && rest[j - 1] in rest;
          if i > 0 {
            assert r[i] == rest[i - 1];
          }
        }
      }
      r
  }

  /** `uniqueLogDays`: the distinct logged days, most recent first. */
  function DescendingDays(meals: seq<LoggedMeal>): (r: seq<int>)
    ensures StrictlyDescending(r)
    ensures forall x :: x in r <==> x in LogDays(meals)
  {
    if meals == [] then []
    else InsertDescending(DescendingDays(meals[..|meals| - 1]), DayOf(meals[|meals| - 1].loggedAt))
  }

  /** The most recent logged day. */
  function LatestDay(meals: seq<LoggedMeal>): (d: int)
    requires meals != []
    ensures d in LogDays(meals)
    ensures forall x :: x in LogDays(meals) ==> x <= d
  {
    var day := DayOf(meals[|meals| - 1].loggedAt);
    if |meals| == 1 then day
    else
      var earlier := LatestDay(meals[..|meals| - 1]);
      if day > earlier then day else earlier
  }

  /** The head of the descending day list is the most recent logged day. */
  lemma DescendingDaysHead(meals: seq<LoggedMeal>)
    requires meals != []
    ensures |DescendingDays(meals)| > 0 && DescendingDays(meals)[0] == LatestDay(meals)
  {
    var days := DescendingDays(meals);
    var latest := LatestDay(meals);
    assert latest in days;
    assert days[0] in LogDays(meals);
    forall i | 0 <= i < |days| ensures days[i] <= days[0] {
      if i > 0 { assert days[0] > days[i]; }
    }
  }

  /** The number of consecutive logged days counting back from day `d`. */
  function RunFrom(days: set<int>, d: int): nat
    decreases |days|
  {
    if d in days then 1 + RunFrom(days - {d}, d - 1) else 0
  }

  /** A run is never longer than the number of logged days. */
  lemma {:induction false} RunFromBound(days: set<int>, d: int)
    ensures RunFrom(days, d) <= |days|
    decreases |days|
  {
    if d in days {
      RunFromBound(days - {d}, d - 1);
    }
  }

  /** Days `d - n + 1` through `d` are all logged. */
  ghost predicate LoggedRun(days: set<int>, d: int, n: int) {
    forall x :: d - n < x <= d ==> x in days
  }

  /** `RunFrom` is the run length: `d`, `d-1`, ..., `d-n+1` are logged and `d-n` is not. */
  lemma {:induction false} RunFromIsRun(days: set<int>, d: int)
    ensures LoggedRun(days, d, RunFrom(days, d))
    ensures d - RunFrom(days, d) !in days
    decreases |days|
  {
    if d in days {
      RunFromIsRun(days - {d}, d - 1);
      var n := RunFrom(days - {d}, d - 1);
      forall x | d - (n + 1) < x <= d ensures x in days {
        if x != d { assert x in days - {d}; }
      }
    }
  }

  /** Conversely, a run of `n` logged days ending before a gap has length `n`. */
  lemma {:induction false} RunFromExact(days: set<int>, d: int, n: nat)
    requires LoggedRun(days, d, n)
    requires d - n !in days
    ensures RunFrom(days, d) == n
    decreases n
  {
    if n > 0 {
      assert d in days;
      assert LoggedRun(days - {d}, d - 1, n - 1);
      RunFromExact(days - {d}, d - 1, n - 1);
    }
  }

  /** The streak for the set of logged days and the last of them: 0 unless
      the last logged day is today or yesterday, and otherwise the run of
      consecutive logged days counting back from it. */
  function StreakFrom(days: set<int>, latest: int, today: int): nat {
    if latest != today && latest != today - 1 then 0
    else RunFrom(days, latest)
  }

  /** `currentStreak` as a specification: 0 for an empty log, and otherwise
      the streak of its logged days. */
  function Streak(meals: seq<LoggedMeal>, today: int): nat {
    if meals == [] then 0
    else StreakFrom(LogDays(meals), LatestDay(meals), today)
  }

  /** The streak never exceeds the number of distinct logged days, and a
      positive streak means today or yesterday was logged. */
  lemma StreakBounds(meals: seq<LoggedMeal>, today: int)
    ensures Streak(meals, today) <= |LogDays(meals)|
    ensures Streak(meals, today) > 0 ==> today in LogDays(meals) || today - 1 in LogDays(meals)
  {
    if meals != [] {
      RunFromBound(LogDays(meals), LatestDay(meals));
    }
  }

  /** A run of `n` days ending at `latest`, today or yesterday, with no logged
      day just before it, is a streak of `n`. */
  lemma StreakFromRun(days: set<int>, latest: int, today: int, n: nat)
    requires latest == today || latest == today - 1
    requires LoggedRun(days, latest, n)
    requires latest - n !in days
    ensures StreakFrom(days, latest, today) == n
  {
    RunFromExact(days, latest, n);
  }

  /** A run of `n` logged days ending at the last logged day, when that day is
      today or yesterday and the day before the run is not logged, is the streak. */
  lemma StreakOfRun(meals: seq<LoggedMeal>, today: int, n: nat)
    requires meals != []
    requires LatestDay(meals) == today || LatestDay(meals) == today - 1
    requires LoggedRun(LogDays(meals), LatestDay(meals), n)
    requires LatestDay(meals) - n !in LogDays(meals)
    ensures Streak(meals, today) == n
  {
    StreakFromRun(LogDays(meals), LatestDay(meals), today, n);
  }

  /** Logged today, yesterday and the day before: a streak of 3. */
  lemma StreakOfThreeDays(meals: seq<LoggedMeal>, today: int)
    requires LogDays(meals) == {today, today - 1, today - 2}
    ensures Streak(meals, today) == 3
  {
    var days := {today, today - 1, today - 2};
    assert DayOf(meals[0].loggedAt) in days;
    assert LatestDay(meals) == today;
    assert LoggedRun(days, today, 3) by {
      forall x | today - 3 < x <= today ensures x in days {
        assert x == today || x == today - 1 || x == today - 2;
      }
    }
    StreakFromRun(days, today, today, 3);
  }

  /** Logged yesterday only: a streak of 1, since today may still be logged. */
  lemma StreakFromYesterday(meals: seq<LoggedMeal>, today: int)
    requires LogDays(meals) == {today - 1}
    ensures Streak(meals, today) == 1
  {
    assert DayOf(meals[0].loggedAt) in LogDays(meals);
    assert LatestDay(meals) == today - 1;
    StreakFromRun({today - 1}, today - 1, today, 1);
  }

  /** Last logged two days ago: the streak is broken. */
  lemma StreakBrokenByGap(meals: seq<LoggedMeal>, today: int)
    requires LogDays(meals) == {today - 2}
    ensures Streak(meals, today) == 0
  {
    assert DayOf(meals[0].loggedAt) in LogDays(meals);
  }

  /** Where the walk over a descending day list stops, the run of days ends. */
  lemma WalkStopsAtGap(days: seq<int>, top: int, i: nat)
    requires StrictlyDescending(days)
    requires |days| > 0 && days[0] == top
    requires i <= |days|
    requires forall j :: 0 <= j < i ==> days[j] == top - j
    requires i < |days| ==> days[i] != top - i
    ensures forall x :: top - i < x <= top ==> x in days
    ensures top - i !in days
  {
    forall x | top - i < x <= top ensures x in days {
      assert days[top - x] == x;
    }
    forall j | 0 <= j < |days| ensures days[j] != top - i {
      if j >= i {
        assert i >= 1;
        assert days[i] < days[i - 1];
        if j > i { assert days[j] < days[i]; }
      }
    }
  }

  /** The count where the walk over a descending list of the logged days
      stops is the run of logged days counting back from the first. */
  lemma WalkIsRun(days: seq<int>, logged: set<int>, i: nat)
    requires StrictlyDescending(days) && |days| > 0
    requires forall x :: x in days <==> x in logged
    requires i <= |days|
    requires forall j :: 0 <= j < i ==> days[j] == days[0] - j
    requires i < |days| ==> days[i] != days[0] - i
    ensures RunFrom(logged, days[0]) == i
  {
    var top := days[0];
    WalkStopsAtGap(days, top, i);
    assert LoggedRun(logged, top, i) by {
      forall x | top - i < x <= top ensures x in logged {
        assert x in days;
      }
    }
    RunFromExact(logged, top, i);
  }

  /** The count where the walk over the log's descending day list stops is the streak. */
  lemma WalkCountIsStreak(meals: seq<LoggedMeal>, today: int, i: nat)
    requires meals != []
    requires LatestDay(meals) == today || LatestDay(meals) == today - 1
    requires i <= |DescendingDays(meals)|
    requires forall j :: 0 <= j < i ==> DescendingDays(meals)[j] == LatestDay(meals) - j
    requires i < |DescendingDays(meals)| ==> DescendingDays(meals)[i] != LatestDay(meals) - i
    ensures Streak(meals, today) == i
  {
    DescendingDaysHead(meals);
    WalkIsRun(DescendingDays(meals), LogDays(meals), i);
  }

  /** `currentStreak`: walks the descending day list from the most recent day,
      counting while each day is the one before the previous. */
  method CurrentStreak(meals: seq<LoggedMeal>, today: int) returns (streak: nat)
    ensures streak == Streak(meals, today)
  {
    if |meals| == 0 {
      return 0;
    }
    var uniqueLogDays := DescendingDays(meals);
    DescendingDaysHead(meals);
    streak := 0;
    var mostRecentLog := uniqueLogDays[0];
    if mostRecentLog != today && mostRecentLog != today - 1 {
      return 0;
    }
    var expectedDate := mostRecentLog;
    var i := 0;
    while i < |uniqueLogDays|
      invariant 0 <= i <= |uniqueLogDays|
      invariant streak == i && expectedDate == mostRecentLog - i
      invariant forall j :: 0 <= j < i ==> uniqueLogDays[j] == mostRecentLog - j
    {
      if uniqueLogDays[i] == expectedDate {
        streak := streak + 1;
        expectedDate := expectedDate - 1;
      } else {
        break;
      }
      i := i + 1;
    }
    WalkCountIsStreak(meals, today, i);
  }

  // ---------------------------------------------------------------------------
  // The shared summary

  /** The value records of the chart rows, in order. */
  function Values(rows: seq<ChartRow>): (r: seq<Nutrients>)
    ensures |r| == |rows|
    ensures forall i :: 0 <= i < |rows| ==> r[i] == rows[i].values
  {
    seq(|rows|, i requires 0 <= i < |rows| => rows[i].values)
  }

  /** `handleShareOnWhatsApp`'s averaging: nothing when the chart is empty;
      otherwise every field summed over the rows and divided by the row count. */
  method ShareAverages(chartData: seq<ChartRow>) returns (averages: Option<Nutrients>)
    ensures averages.None? <==> chartData == []
    ensures averages.Some? ==>
      forall k :: Get(averages.value, k) * |chartData| as real == FieldSum(Values(chartData), k)
  {
    if |chartData| == 0 {
      return None;
    }
    var sumTotals := SumRows(chartData);
    averages := Some(Divide(sumTotals, |chartData| as real));
    AverageTimesCount(sumTotals, chartData);
  }

  /** Dividing the per-field sums by the row count gives averages that,
      multiplied back by the count, are the sums. */
  lemma AverageTimesCount(sumTotals: Nutrients, chartData: seq<ChartRow>)
    requires chartData != []
    requires forall k :: Get(sumTotals, k) == FieldSum(Values(chartData), k)
    ensures var average := Some(Divide(sumTotals, |chartData| as real));
      forall k :: Get(average.value, k) * |chartData| as real == FieldSum(Values(chartData), k)
  {
    var average := Divide(sumTotals, |chartData| as real);
    forall k ensures Get(average, k) * |chartData| as real == FieldSum(Values(chartData), k) {
      assert Get(average, k) * |chartData| as real == Get(sumTotals, k);
    }
  }

  /** The reduce over the chart rows that adds every field into an accumulator starting at zero. */
  method SumRows(chartData: seq<ChartRow>) returns (sumTotals: Nutrients)
    ensures forall k :: Get(sumTotals, k) == FieldSum(Values(chartData), k)
  {
    sumTotals := Zero;
    var i := 0;
    while i < |chartData|
      invariant 0 <= i <= |chartData|
      invariant sumTotals == Total(Values(chartData[..i]))
    {
      assert Values(chartData[..i + 1]) == Values(chartData[..i]) + [chartData[i].values];
      sumTotals := Add(sumTotals, chartData[i].values);
      i := i + 1;
    }
    assert chartData[..i] == chartData;
  }
}
