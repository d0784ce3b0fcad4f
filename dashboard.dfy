/** The dashboard's bookkeeping: today's meals, their running totals, and the
    progress figures shown against the daily goals. */
module Dashboard {
  import opened Wrappers
  import opened Sequences
  import opened Nutrition
  import opened Calendar
  import opened MealLog

  /** `isToday(new Date(meal.loggedAt))` for the clock reading `now`. */
  predicate LoggedToday(m: LoggedMeal, now: int) {
    DayOf(m.loggedAt) == DayOf(now)
  }

  /** `todaysMeals`: the meals logged on the current day, in log order. */
  function TodaysMeals(meals: seq<LoggedMeal>, now: int): (r: seq<LoggedMeal>)
    ensures forall m :: m in r <==> m in meals && LoggedToday(m, now)
  {
    Filter(meals, m => LoggedToday(m, now))
  }

  /** Order is preserved: today's meals of a longer log are today's meals of its
      prefix followed by those of the newer entries. */
  lemma TodaysMealsAppend(older: seq<LoggedMeal>, newer: seq<LoggedMeal>, now: int)
    ensures TodaysMeals(older + newer, now) == TodaysMeals(older, now) + TodaysMeals(newer, now)
  {
    FilterAppend(older, newer, m => LoggedToday(m, now));
  }

  /** A log whose every entry was made today is its own list of today's meals. */
  lemma AllToday(meals: seq<LoggedMeal>, now: int)
    requires forall i :: 0 <= i < |meals| ==> DayOf(meals[i].loggedAt) == DayOf(now)
    ensures TodaysMeals(meals, now) == meals
  {
    FilterKeepsAll(meals, m => LoggedToday(m, now));
  }

  /** `totals`: the reduce over today's meals that adds each meal's eleven
      fields into an accumulator that starts at zero. */
  method TodayTotals(todaysMeals: seq<LoggedMeal>) returns (totals: Nutrients)
    ensures totals == Total(Profiles(todaysMeals))
    ensures forall k :: Get(totals, k) == FieldSum(Profiles(todaysMeals), k)
    ensures todaysMeals == [] ==> totals == Zero
  {
    totals := Zero;
    var i := 0;
    while i < |todaysMeals|
      invariant 0 <= i <= |todaysMeals|
      invariant totals == Total(Profiles(todaysMeals[..i]))
    {
      assert Profiles(todaysMeals[..i + 1]) == Profiles(todaysMeals[..i]) + [todaysMeals[i].nutrients];
      totals := Add(totals, todaysMeals[i].nutrients);
      i := i + 1;
    }
    assert todaysMeals[..i] == todaysMeals;
  }

  /** `getProgress`: the percentage of the goal reached; 0 when there is no
      positive goal, so nothing is ever divided by zero. */
  function Progress(current: real, goal: real): (pct: real)
    ensures goal > 0.0 ==> pct * goal == current * 100.0
    ensures goal <= 0.0 ==> pct == 0.0
  {
    if goal > 0.0 then current / goal * 100.0 else 0.0
  }

  /** Progress reaches 100 exactly when the goal is met. */
  lemma ProgressFullIffGoalMet(current: real, goal: real)
    requires goal > 0.0
    ensures Progress(current, goal) >= 100.0 <==> current >= goal
  {
    AboveThreshold(100.0, goal, Progress(current, goal));
  }

  /** `getProgressColorClass`: over 105% is destructive, over 90% a warning,
      anything else (and any goal that is not positive) the primary colour. */
  function ProgressColorClass(current: real, goal: real): (cls: string)
    ensures goal <= 0.0 ==> cls == "bg-primary"
    ensures goal > 0.0 ==> (cls == "bg-destructive" <==> current * 100.0 > 105.0 * goal)
    ensures goal > 0.0 ==> (cls == "bg-warning" <==> 90.0 * goal < current * 100.0 <= 105.0 * goal)
    ensures goal > 0.0 ==> (cls == "bg-primary" <==> current * 100.0 <= 90.0 * goal)
  {
    if goal <= 0.0 then "bg-primary"
    else
      var percentage := current / goal * 100.0;
      assert percentage * goal == current * 100.0;
      AboveThreshold(percentage, goal, 105.0);
      AboveThreshold(percentage, goal, 90.0);
      if percentage > 105.0 then "bg-destructive"
      else if percentage > 90.0 then "bg-warning"
      else "bg-primary"
  }

  /** Comparing a percentage with a threshold is comparing both multiplied by a positive goal. */
  lemma AboveThreshold(pct: real, goal: real, threshold: real)
    requires goal > 0.0
    ensures pct > threshold <==> pct * goal > threshold * goal
  {
    if pct > threshold {
      assert (pct - threshold) * goal > 0.0;
    } else {
      assert (threshold - pct) * goal >= 0.0;
    }
  }

  /** The colour follows the bar: destructive exactly when the bar shows more than 105. */
  lemma ColourMatchesProgress(current: real, goal: real)
    requires goal > 0.0
    ensures ProgressColorClass(current, goal) == "bg-destructive" <==> Progress(current, goal) > 105.0
    ensures ProgressColorClass(current, goal) == "bg-warning" <==> 90.0 < Progress(current, goal) <= 105.0
  {
    var pct := Progress(current, goal);
    AboveThreshold(pct, goal, 105.0);
    AboveThreshold(pct, goal, 90.0);
  }

  /** `Math.max(0, dailyGoals.calories - totals.calories)`. */
  function RemainingCalories(goal: real, total: real): (r: real)
    ensures r >= 0.0 && r >= goal - total
    ensures r == 0.0 || r == goal - total
  {
    if goal - total > 0.0 then goal - total else 0.0
  }

  /** The `remainingCalories` argument of the suggestion request: absent exactly
      when the goal is already reached. */
  function SuggestionCalories(goal: real, total: real): (r: Option<real>)
    ensures r.None? <==> total >= goal
    ensures r.Some? ==> r.value > 0.0 && r.value + total == goal
  {
    var remaining := RemainingCalories(goal, total);
    if remaining > 0.0 then Some(remaining) else None
  }
}
