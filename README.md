# NutriSnap nutrition bookkeeping in Dafny

This project models the client-side bookkeeping of NutriSnap, a nutrition
tracking web app, and proves properties of it. The app keeps a meal log, the
user's settings and a list of testimonials in React contexts backed by browser
storage. The dashboard shows today's totals against the daily goals. The
reports page shows average intake per day, week or month, the current logging
streak, and the averages in the shared summary. The language context picks
English or Arabic and looks up dotted keys in nested dictionaries.

Modules:

- `Wrappers` and `Sequences`: `Option`, `Filter`, and order-preserving
  de-duplication (`Array.from(new Set(...))`).
- `Nutrition`: the eleven-field nutrient record, the field-wise sum, and
  `Math.round` for chart values.
- `Calendar`: instants as milliseconds, days as day indices, Monday-based
  weeks, and months read from an abstract `MonthTable`.
- `Ids`: the generated identifier shared by meals and testimonials.
- `MealLog` and `Testimonials`: the append-only stores. Each is a class with
  its in-memory list and its storage item.
- `UserSettings`: defaults, partial updates of goals and profile, the
  feedback lists, and the merge applied when settings are loaded.
- `Dashboard`: today's meals, their totals, the progress bar and its colour,
  and the remaining calories.
- `Reports`: chart buckets, chart rows, the streak, and the shared averages.
- `Language`: the initial language, the text direction, `setLanguage`, and
  `t` with its key walk.

Two quirks of the reports page are kept as they are written.

- A daily bucket ends at the same instant it starts, midnight. So it holds
  only meals logged exactly at midnight, and the daily chart shows zero for
  any other meal (`Reports.DailyChartIgnoresMealsAfterMidnight`).
- Weekly and monthly rows are kept or dropped by testing their rounded
  values.

Storage that fails to save appears as a `saveSucceeds` parameter. The clock
is a parameter (`now`, `today`), and so is the random part of generated ids.

## Model

| member | source | states |
|---|---|---|
| Sequences.Filter | src/app/dashboard/page.tsx:85 | the filtered list holds exactly the elements that satisfy the predicate, and is no longer than the input |
| Sequences.Distinct | src/contexts/user-settings-context.tsx:140-142 | the de-duplicated list has no duplicates and the same members as the input |
| Sequences.DistinctKeepsFirstOccurrenceOrder | src/contexts/user-settings-context.tsx:140-142 | the de-duplicated list keeps the insertion order of a `Set`: its elements come in the order of their first occurrences in the input |
| Sequences.DistinctAppend | src/contexts/user-settings-context.tsx:140-142 | de-duplicating a duplicate-free list with one more item appended leaves the list as it was when the item is present, and appends it otherwise |
| Nutrition.Total | src/app/dashboard/page.tsx:88-106 | the field-by-field reduce that starts from zero gives, for every nutrient, the sum of that nutrient over the list |
| Nutrition.Divide | src/app/reports/page.tsx:130-142 | each averaged field times the divisor gives back the total |
| Nutrition.JsRound | src/app/reports/page.tsx:146-155 | `Math.round` gives the integer within half a unit, rounding halves up |
| Nutrition.JsRoundUnique | src/app/reports/page.tsx:146-155 | an integer in (x - 1/2, x + 1/2] is the rounded value of x |
| Nutrition.RoundTenth | src/app/reports/page.tsx:156 | iron is rounded to a whole number of tenths, within 0.05 of the value |
| Nutrition.RoundForChart | src/app/reports/page.tsx:144-157 | every field except iron rounds to an integer within half a unit; iron rounds to tenths |
| Nutrition.JsRoundOfExactQuotient | src/app/reports/page.tsx:130-155 | a total that is an exact multiple of the divisor rounds to that multiple |
| Nutrition.RoundedAverageOfZero | src/app/reports/page.tsx:108-157 | averaging and rounding a zero total gives zero in every field |
| Calendar.DayOfBounds | src/app/reports/page.tsx:105 | an instant falls on day d exactly when it lies between that day's first and last millisecond |
| Calendar.DayOfMonotone | src/app/reports/page.tsx:189-191 | a later instant never falls on an earlier day |
| Calendar.SubDays | src/app/reports/page.tsx:173 | `subDays(t, n)` falls n days before t |
| Calendar.WeekStart | src/app/reports/page.tsx:76-80 | a week starts on the Monday on or before the day, within the six days before it |
| Calendar.MonthOfBounds | src/app/reports/page.tsx:96 | with a valid month table, a day belongs to month m exactly when it falls between m's first and last day |
| Reports.Buckets | src/app/reports/page.tsx:75-83 | bucket i is the i-th day from the start date's day, the week starting i weeks after the Monday of the start date's week, or the i-th month from the start date's month; there is one per day, week or month up to the end date's, and none when the end comes first |
| Reports.BucketsOrdered | src/app/reports/page.tsx:75-97 | for days, weeks, and months of a valid month table, the buckets start at midnights in increasing order; for an interval that is not reversed there is at least one, the first starting no later than the start date and the last no later than the end date |
| Reports.DayBuckets | src/app/reports/page.tsx:77-91 | one bucket per day of the interval and none when it is reversed; bucket i is the single instant of the midnight of the i-th day after the first |
| Reports.WeekBuckets | src/app/reports/page.tsx:79-94 | one bucket per week from the first day's week to the last day's, bucket i starting i weeks after the first Monday; every bucket runs from a Monday's midnight to the end of the following Sunday, each starts right after the previous one ends, the first starts no later than the first day and the last ends no earlier than the last day |
| Reports.MonthBuckets | src/app/reports/page.tsx:81-97 | one bucket per month from the first day's month to the last day's, bucket i being the i-th month after the first; for a valid month table each is the whole month containing its first day, each starts right after the previous one ends, and together they cover the interval |
| Reports.MonthBucketIsMonth | src/app/reports/page.tsx:95-97 | a month bucket starts on its month's first day, and that day belongs to the month |
| Reports.MealsIn | src/app/reports/page.tsx:100-103 | the meals of a bucket are exactly the logged meals whose timestamp lies between the bucket's start and end, inclusive |
| Reports.DayBucketHoldsOnlyMidnight | src/app/reports/page.tsx:89-103 | a meal falls in a daily bucket exactly when it was logged at that day's midnight |
| Reports.LogDays | src/app/reports/page.tsx:105 | every meal's day is among the distinct logging days |
| Reports.LogDaysCount | src/app/reports/page.tsx:105-106 | there are no more distinct logging days than meals, and at least one once a meal is logged |
| Reports.LogDaysMembership | src/app/reports/page.tsx:190-191 | a day is a logging day exactly when some meal was logged on it |
| Reports.Divisor | src/app/reports/page.tsx:105-106 | the divisor is at least 1; it is 1 for days and for empty buckets, and otherwise the number of distinct days with a meal in the bucket |
| Reports.WeekDivisorAtMostSeven | src/app/reports/page.tsx:105-106 | a week's average is never divided by more than seven |
| Reports.RowIsRoundedAverage | src/app/reports/page.tsx:108-157 | each field of a chart row is the bucket's total divided by the divisor and then rounded; iron is rounded to tenths |
| Reports.DayRowIsSum | src/app/reports/page.tsx:105-157 | a day divides by one: each field of a day row is the rounded sum of that field over the bucket's meals |
| Reports.AveragePerLoggedDay | src/app/reports/page.tsx:105-146 | a week or month in which 4000 kcal were logged over two distinct days shows 2000 kcal |
| Reports.Row | src/app/reports/page.tsx:99-158 | a row is named by its bucket's start, and a bucket with no meals yields a row of zeros |
| Reports.HasIntake | src/app/reports/page.tsx:165 | a row that passes the week and month filter is not all zeros |
| Reports.Aggregate | src/app/reports/page.tsx:70-166 | for days, the row of every bucket, in bucket order, each named by its bucket's start; for weeks and months, exactly the bucket rows with positive rounded calories, protein, carbs or fats, in bucket order |
| Reports.EmptyLogNoRows | src/app/reports/page.tsx:164-165 | with no meals, the weekly and monthly aggregates are empty |
| Reports.Earliest | src/app/reports/page.tsx:176 | the first log date is the timestamp of some meal and is no later than any meal's |
| Reports.ChartData | src/app/reports/page.tsx:168-185 | an empty log gives no rows on any tab; otherwise the daily tab is the day aggregate from six days ago to now, seven rows for the six days before today and for today, and the weekly and monthly tabs are the week and month aggregates from the earliest logged meal to now, every row showing some intake |
| Reports.DailyChartRowIsDaySum | src/app/reports/page.tsx:99-173 | each field of the i-th daily row is the rounded sum of that field over the meals in the i-th of the last seven days' buckets; iron is rounded to tenths |
| Reports.WeeklyChartShowsWeek | src/app/reports/page.tsx:79-177 | the weekly chart holds the row of the week n weeks after the first logged meal's week, for every week up to the current one, exactly when that row shows some intake |
| Reports.MonthlyChartShowsMonth | src/app/reports/page.tsx:81-181 | the monthly chart holds the row of the month n months after the first logged meal's month, for every month up to the current one, exactly when that row shows some intake |
| Reports.ChartShowsBucket | src/app/reports/page.tsx:160-181 | the weekly or monthly chart holds the row of any one of its buckets exactly when that row shows some intake |
| Reports.DailyChartIgnoresMealsAfterMidnight | src/app/reports/page.tsx:89-103 | when no meal was logged exactly at midnight, all seven daily rows are zero |
| Reports.InsertDescending | src/app/reports/page.tsx:192 | inserting a day into a strictly descending list keeps it strictly descending and adds exactly that day |
| Reports.DescendingDays | src/app/reports/page.tsx:190-192 | the sorted unique log days are strictly descending and are exactly the days with a meal |
| Reports.LatestDay | src/app/reports/page.tsx:198 | the most recent log day is a log day, and no log day is later |
| Reports.DescendingDaysHead | src/app/reports/page.tsx:190-198 | the first sorted log day is the most recent one |
| Reports.RunFromBound | src/app/reports/page.tsx:204-214 | a run of consecutive log days is never longer than the number of log days |
| Reports.RunFromIsRun | src/app/reports/page.tsx:204-214 | every one of the counted days, back from the starting day, is a log day |
| Reports.RunFromExact | src/app/reports/page.tsx:204-214 | a run of n log days followed by a day without a log counts exactly n |
| Reports.StreakBounds | src/app/reports/page.tsx:187-217 | the streak never exceeds the number of log days, and is positive only when today or yesterday was logged |
| Reports.StreakFromRun | src/app/reports/page.tsx:200-216 | for a set of log days whose latest is today or yesterday, a run of n days ending there with a gap before it is a streak of n |
| Reports.StreakOfRun | src/app/reports/page.tsx:196-216 | when the latest log is today or yesterday, the streak is the length of the run of consecutive days ending there |
| Reports.StreakOfThreeDays | src/app/reports/page.tsx:196-216 | logs today, yesterday and the day before give a streak of 3 |
| Reports.StreakFromYesterday | src/app/reports/page.tsx:200-202 | a log only yesterday still gives a streak of 1 |
| Reports.StreakBrokenByGap | src/app/reports/page.tsx:200-202 | a latest log two days ago gives a streak of 0 |
| Reports.WalkStopsAtGap | src/app/reports/page.tsx:206-214 | the walk over sorted days stops at the first day that is not one day before the previous; the days it passed form a run and the next day is missing |
| Reports.WalkIsRun | src/app/reports/page.tsx:204-216 | the count where the walk over a descending list of the log days stops is the run of consecutive log days back from the first |
| Reports.WalkCountIsStreak | src/app/reports/page.tsx:196-216 | when the latest log is today or yesterday, the count where the walk stops is the streak |
| Reports.CurrentStreak | src/app/reports/page.tsx:187-217 | the loop over sorted log days computes the streak: zero for an empty log or when neither today nor yesterday was logged, and otherwise the length of the consecutive run |
| Reports.SumRows | src/app/reports/page.tsx:224-237 | the loop sums every nutrient over all chart rows |
| Reports.ShareAverages | src/app/reports/page.tsx:219-248 | nothing is shared for an empty chart; otherwise each average times the number of rows is that nutrient's sum over the rows |
| Dashboard.TodaysMeals | src/app/dashboard/page.tsx:84-86 | today's meals are exactly the logged meals whose timestamp falls on the current day |
| Dashboard.TodaysMealsAppend | src/app/dashboard/page.tsx:84-86 | the filter keeps log order: today's meals of a longer log are those of its prefix, then those of the new entries |
| Dashboard.AllToday | src/app/dashboard/page.tsx:84-86 | a log made entirely today is its own list of today's meals |
| Dashboard.TodayTotals | src/app/dashboard/page.tsx:88-106 | the loop gives each nutrient's sum over today's meals, and zero when there are none |
| Dashboard.Progress | src/app/dashboard/page.tsx:36 | the progress is the percentage of the goal reached, and 0 when the goal is not positive |
| Dashboard.ProgressFullIffGoalMet | src/app/dashboard/page.tsx:36 | with a positive goal, the bar reaches 100 exactly when the goal is met |
| Dashboard.ProgressColorClass | src/app/dashboard/page.tsx:38-44 | the bar is destructive above 105% of the goal, warning above 90% and up to 105%, and primary otherwise or for a goal that is not positive |
| Dashboard.ColourMatchesProgress | src/app/dashboard/page.tsx:36-44 | the colour agrees with the bar's value: destructive exactly above 105, warning exactly in (90, 105] |
| Dashboard.RemainingCalories | src/app/dashboard/page.tsx:112 | the remaining calories are never negative and are either zero or goal minus intake |
| Dashboard.SuggestionCalories | src/app/dashboard/page.tsx:112-119 | remaining calories are sent exactly when the goal is not yet reached, and then they add up with the intake to the goal |
| MealLog.NewMeal | src/contexts/meal-log-context.tsx:35-40 | the new entry carries every supplied field, is stamped with the current instant, and gets an id made from that instant |
| MealLog.MealLogStore.constructor | src/contexts/meal-log-context.tsx:22 | the provider starts with an empty list |
| MealLog.MealLogStore.Load | src/contexts/meal-log-context.tsx:24-33 | a stored list replaces the in-memory list; nothing stored or unparsable text leaves the list as it was; storage is only read |
| MealLog.MealLogStore.AddMeal | src/contexts/meal-log-context.tsx:35-51 | the new meal is appended at the end and the whole list is saved; a failed save keeps the append in memory and leaves storage unchanged |
| MealLog.ReloadAfterAdd | src/contexts/meal-log-context.tsx:24-51 | after a successful add, a reload sees exactly the list the session ended with, with the new meal last |
| Testimonials.NewTestimonial | src/contexts/testimonials-context.tsx:36-40 | the new testimonial carries every supplied field and an id made from the current instant |
| Testimonials.TestimonialStore.constructor | src/contexts/testimonials-context.tsx:23 | the provider starts with an empty list |
| Testimonials.TestimonialStore.Load | src/contexts/testimonials-context.tsx:25-34 | a stored list replaces the in-memory list; nothing stored or unparsable text leaves it as it was |
| Testimonials.TestimonialStore.AddTestimonial | src/contexts/testimonials-context.tsx:36-51 | the testimonial is appended and the whole list is saved; a failed save keeps the append in memory only |
| Testimonials.ReloadAfterFailedSave | src/contexts/testimonials-context.tsx:25-51 | after a failed save, a reload shows the list as it was before the append, although the session showed the new testimonial |
| UserSettings.DefaultsAsDeclared | src/contexts/user-settings-context.tsx:13-62 | the default goals are 2000, 120, 250, 70, 30, 2300, 50, 3500, 90, 1000 and 18, all positive, and both feedback lists start empty |
| UserSettings.Whole | src/contexts/user-settings-context.tsx:129 | a full profile used as a patch supplies every field |
| UserSettings.PatchProfile | src/contexts/user-settings-context.tsx:129 | every field the patch supplies overrides the profile's, and every other field keeps its value |
| UserSettings.CombineSupplied | src/contexts/user-settings-context.tsx:125-134 | two patches combined supply the second's value where it has one, and otherwise the first's |
| UserSettings.PatchProfileIdentity | src/contexts/user-settings-context.tsx:129 | an empty patch changes nothing, and a full profile replaces the old one |
| UserSettings.PatchProfileTwice | src/contexts/user-settings-context.tsx:125-134 | two profile updates in a row equal one update with the combined patch |
| UserSettings.PatchGoals | src/contexts/user-settings-context.tsx:118 | every goal the patch names takes the patch's value, and every other goal keeps its value |
| UserSettings.PatchGoalsTwice | src/contexts/user-settings-context.tsx:114-123 | two goal updates in a row equal one update with the merged patch, the later values winning |
| UserSettings.PatchGoalsEmpty | src/contexts/user-settings-context.tsx:118 | an empty goal patch changes nothing |
| UserSettings.AddFeedback | src/contexts/user-settings-context.tsx:140-142 | the dish is in the new list, the list has no duplicates and keeps all previous dishes; a dish already present leaves a duplicate-free list unchanged, and otherwise it is appended |
| UserSettings.AddFeedbackIdempotent | src/contexts/user-settings-context.tsx:136-148 | adding the same dish twice is the same as adding it once |
| UserSettings.WithPositiveFeedback | src/contexts/user-settings-context.tsx:136-148 | liking a dish adds it to the liked list and leaves the goals and every other profile field unchanged |
| UserSettings.WithNegativeFeedback | src/contexts/user-settings-context.tsx:150-162 | disliking a dish adds it to the disliked list and leaves the goals and every other profile field unchanged |
| UserSettings.DishInBothLists | src/contexts/user-settings-context.tsx:136-162 | nothing keeps a dish out of both lists: liked and then disliked, it is in both |
| UserSettings.GoalsObject | src/contexts/user-settings-context.tsx:108 | the saved goals name every nutrient, with its current goal |
| UserSettings.LoadMerge | src/contexts/user-settings-context.tsx:85-99 | on load, each stored profile field and each stored goal overrides the current one; everything not stored keeps its current value |
| UserSettings.LoadNothingStored | src/contexts/user-settings-context.tsx:85-99 | stored settings with no profile and no goals, or empty ones, leave the settings unchanged |
| UserSettings.Serialize | src/contexts/user-settings-context.tsx:106-112 | the saved item holds both objects, with every profile field and every nutrient goal at its current value |
| UserSettings.LoadSavedRoundTrip | src/contexts/user-settings-context.tsx:85-112 | loading what was saved gives back exactly the saved settings, whatever the settings were before |
| UserSettings.UserSettingsStore.constructor | src/contexts/user-settings-context.tsx:79 | the provider starts with the default settings |
| UserSettings.UserSettingsStore.Load | src/contexts/user-settings-context.tsx:81-104 | parsed settings are merged into the current ones; nothing stored or unparsable text leaves them unchanged; storage is only read |
| UserSettings.UserSettingsStore.Save | src/contexts/user-settings-context.tsx:106-112 | a successful save stores the serialized settings, and a failed one leaves storage unchanged; the settings themselves never change |
| UserSettings.UserSettingsStore.UpdateGoals | src/contexts/user-settings-context.tsx:114-123 | the goals are patched, the profile is kept, and the new settings are saved |
| UserSettings.UserSettingsStore.UpdateProfile | src/contexts/user-settings-context.tsx:125-134 | the profile is patched, the goals are kept, and the new settings are saved |
| UserSettings.UserSettingsStore.AddPositiveFeedback | src/contexts/user-settings-context.tsx:136-148 | the dish is added to the liked list and the new settings are saved |
| UserSettings.UserSettingsStore.AddNegativeFeedback | src/contexts/user-settings-context.tsx:150-162 | the dish is added to the disliked list and the new settings are saved |
| UserSettings.ReloadAfterUpdate | src/contexts/user-settings-context.tsx:81-123 | after a goal update is saved, a reload sees exactly the settings the session ended with, including every updated goal |
| Language.Code | src/contexts/language-context.tsx:43-48 | each language has a two-letter code |
| Language.InitialLang | src/contexts/language-context.tsx:34-37 | the app starts in English exactly when the cookie reads `en`, and in Arabic otherwise, including when there is no cookie |
| Language.Dir | src/contexts/language-context.tsx:41 | the text runs right to left exactly for Arabic |
| Language.CookieRoundTrip | src/contexts/language-context.tsx:34-48 | the cookie a language writes is read back as that language |
| Language.Split | src/contexts/language-context.tsx:23 | splitting at the dots gives at least one piece, no piece contains a dot, and there is one piece exactly when the key has no dot |
| Language.JoinSplit | src/contexts/language-context.tsx:23 | joining the pieces with dots gives back the key |
| Language.SplitJoin | src/contexts/language-context.tsx:23 | pieces free of dots, joined and split again, come back unchanged |
| Language.Index | src/contexts/language-context.tsx:27 | a step of the walk finds a value exactly when the current value is an object with that key, and the value found is the one stored under that key |
| Language.DescendUndefined | src/contexts/language-context.tsx:26 | once undefined, the walk stays undefined |
| Language.DescendAppend | src/contexts/language-context.tsx:22-30 | walking a path is walking its front and then its back from where the front ends |
| Language.UndefinedStepStops | src/contexts/language-context.tsx:25-28 | an undefined intermediate value makes every longer walk undefined |
| Language.GetDescendantProp | src/contexts/language-context.tsx:22-30 | the loop, with its early return, ends with the value at the end of the dotted path, or undefined |
| Language.Translation | src/contexts/language-context.tsx:53-57 | `t` gives the value found under the dotted key when it is truthy, and the key itself otherwise; it never gives an empty string for a non-empty key |
| Language.MissingKeyShowsKey | src/contexts/language-context.tsx:53-57 | a key with no entry is shown as itself |
| Language.NestedKeyFound | src/contexts/language-context.tsx:22-57 | any key made of dot-free segments that lead through nested objects to a truthy value gives that value |
| Language.SectionKeyFound | src/contexts/language-context.tsx:22-57 | `section.name` finds the non-empty string stored under `name` in the `section` object |
| Language.LanguageContext.constructor | src/contexts/language-context.tsx:34-37 | the provider starts in the language the cookie names |
| Language.LanguageContext.DocumentDir | src/contexts/language-context.tsx:40-44 | the document direction is right to left exactly while the language is Arabic |
| Language.LanguageContext.SetLanguage | src/contexts/language-context.tsx:46-51 | the language becomes the chosen one and its code is written to the cookie |
| Language.LanguageContext.T | src/contexts/language-context.tsx:53-57 | `t` looks the key up in the current language's dictionary and falls back to the key |
| Language.ReloadAfterSetLanguage | src/contexts/language-context.tsx:46-51 | after `setLanguage` and the reload that follows, the app starts in the chosen language |

## Left out

- Time zones and daylight saving are not modelled. A calendar day is a whole day of milliseconds since the epoch, as if local time were UTC.
- Months are not computed from the Gregorian calendar. They come from an abstract `MonthTable`, and `ValidMonths` requires its months to be consecutive, non-empty runs of days.
- Row labels formatted by date-fns (`EEE`, `d MMM`, `MMMM`) are not modelled. A row's name is its bucket's start instant.
- Floating-point arithmetic is modelled as exact real arithmetic, so `Math.round` and the division by the divisor do not round the way IEEE doubles do.
- `loggedAt` is an ISO timestamp string. It is modelled as an integer instant, and the string comparison when finding the earliest log is modelled as integer comparison.
- `addMeal` reads the clock twice, once for the id and once for `loggedAt`. The model uses one instant `now` for both.
- The analysis result that `addMeal` spreads into a logged meal can carry fields beyond the nutrition record, such as the AI's `confidence` score. `MealData` keeps only the dish name, nutrients, ingredients and photo, so those extra fields are not stored in the model.
- The random part of generated ids is a parameter. Distinct ids are not modelled.
- Removing a meal is not modelled: the dashboard asks for `removeMeal`, but the meal log context does not provide it.
- Stored JSON of the wrong shape, such as a list where an object is expected or a string where a number is expected, is not modelled. Storage holds nothing, text that does not parse, or a value of the right type.
- An empty string in storage is falsy and is skipped on load. It is modelled as nothing stored.
- Extra top-level keys in stored settings, which the load spreads into the state, are not modelled. The same goes for goal keys that name no nutrient.
- `null` and an absent field are both modelled as `None`. `JSON.stringify` dropping `undefined` fields is not modelled: `Serialize` writes every field.
- Browser storage quota and write errors are modelled only as the `saveSucceeds` flag. Cross-tab updates are not modelled.
- React's state batching and functional updaters are not modelled. Each store method applies its update at once.
- In `getDescendantProp`, indexing into a string or a prototype property (such as `length`) is not modelled. So is a `null` met midway, which would throw. The dictionaries hold only strings and nested objects.
- `t` is typed as returning a string but returns whatever the lookup found. The model returns a `Value` (a string or an object).
- `window.location.reload()` is modelled as a new language context over the cookie just written. The cookie's 365-day expiry and `document.documentElement.lang` are not modelled.
- The check `uniqueLogDays.length === 0` (src/app/reports/page.tsx:194) cannot be reached after the empty-log check, so the model has no branch for it.
- `chartData`'s final `return []` for a tab other than the three (src/app/reports/page.tsx:183) cannot happen, because `Tab` has exactly three values.
- For a reversed interval (a first log after now), the model gives no day buckets. It gives no week or month buckets either, unless both ends fall in the same week or the same month; then it gives that one bucket. What date-fns does with a reversed interval is not modelled.
- The WhatsApp message text, number formatting, `encodeURIComponent` and `window.open` are left out. Only the averages are modelled.
- The AI flows, authentication, the add-food, settings, feedback and meal-planner pages, and all rendering are outside this model.
