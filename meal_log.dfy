/** The meal log store: an append-only list of logged meals kept in memory
    and written to browser storage on every append. */
module MealLog {
  import opened Wrappers
  import opened Nutrition
  import opened Ids

  datatype MealType = Breakfast | Lunch | Dinner | Snack | Dessert

  /** What the add-food page hands to `addMeal`: the analysed dish without id or timestamp. */
  datatype MealData = MealData(
    dishName: string,
    nutrients: Nutrients,
    ingredients: Option<seq<string>>,
    photoDataUri: Option<string>,
    mealType: Option<MealType>)

  datatype LoggedMeal = LoggedMeal(
    id: GeneratedId,
    loggedAt: int,
    dishName: string,
    nutrients: Nutrients,
    ingredients: Option<seq<string>>,
    photoDataUri: Option<string>,
    mealType: Option<MealType>)

  /** `Omit<LoggedMeal, 'id' | 'loggedAt'>`: a logged meal without id and timestamp. */
  function Details(m: LoggedMeal): MealData {
    MealData(m.dishName, m.nutrients, m.ingredients, m.photoDataUri, m.mealType)
  }

  /** `{ ...mealData, id, loggedAt }`: the entry `addMeal` appends at instant
      `now`. It carries every supplied field, the timestamp, and an id
      generated from the same instant. */
  function NewMeal(data: MealData, now: int, random: real): (m: LoggedMeal)
    ensures Details(m) == data
    ensures m.loggedAt == now && m.id == GeneratedId(now, random)
  {
    LoggedMeal(GeneratedId(now, random), now, data.dishName, data.nutrients,
               data.ingredients, data.photoDataUri, data.mealType)
  }

  /** The nutrient records of a list of meals, in list order. */
  function Profiles(meals: seq<LoggedMeal>): (r: seq<Nutrients>)
    ensures |r| == |meals|
    ensures forall i :: 0 <= i < |meals| ==> r[i] == meals[i].nutrients
  {
    seq(|meals|, i requires 0 <= i < |meals| => meals[i].nutrients)
  }

  /** What `localStorage.getItem('nutrisnap_meal_log')` holds: text that
      `JSON.parse` rejects, or a list of meals. */
  datatype StoredLog = Malformed | Parsed(meals: seq<LoggedMeal>)

  class MealLogStore {
    /** The in-memory list (`loggedMeals` state), oldest first. */
    var loggedMeals: seq<LoggedMeal>
    /** The storage item; `None` when nothing is stored under the key. */
    var stored: Option<StoredLog>

    /** The provider mounts with an empty list over whatever storage holds. */
    constructor(storage: Option<StoredLog>)
      ensures loggedMeals == [] && stored == storage
    {
      loggedMeals := [];
      stored := storage;
    }

    /** The mount effect: a stored list replaces the in-memory one; nothing
        stored or a parse failure leaves it as it is. Storage is only read. */
    method Load()
      modifies this
      ensures stored == old(stored)
      ensures old(stored).Some? && old(stored).value.Parsed? ==> loggedMeals == old(stored).value.meals
      ensures old(stored).None? || old(stored).value.Malformed? ==> loggedMeals == old(loggedMeals)
    {
      match stored
      case Some(Parsed(meals)) => loggedMeals := meals;
      case _ =>
    }

    /** `addMeal`: appends one entry stamped `now`, then saves the whole list.
        A failed save (`saveSucceeds` false) keeps the append in memory and
        leaves storage as it was. */
    method AddMeal(data: MealData, now: int, random: real, saveSucceeds: bool)
      modifies this
      ensures loggedMeals == old(loggedMeals) + [NewMeal(data, now, random)]
      ensures |loggedMeals| == |old(loggedMeals)| + 1
      ensures Details(loggedMeals[|loggedMeals| - 1]) == data
      ensures loggedMeals[|loggedMeals| - 1].loggedAt == now
      ensures saveSucceeds ==> stored == Some(Parsed(loggedMeals))
      ensures !saveSucceeds ==> stored == old(stored)
    {
      var newMeal := NewMeal(data, now, random);
      var updatedMeals := loggedMeals + [newMeal];
      if saveSucceeds {
        stored := Some(Parsed(updatedMeals));
      }
      loggedMeals := updatedMeals;
    }
  }

  /** A session that loads, appends one meal and saves it; then a reload
      (a new store over the same storage) sees exactly the list the first
      session ended with. */
  method ReloadAfterAdd(storage: Option<StoredLog>, data: MealData, now: int, random: real)
    returns (saved: seq<LoggedMeal>, reloaded: seq<LoggedMeal>)
    ensures reloaded == saved
    ensures |saved| >= 1 && Details(saved[|saved| - 1]) == data
  {
    var session := new MealLogStore(storage);
    session.Load();
    session.AddMeal(data, now, random, true);
    saved := session.loggedMeals;
    var next := new MealLogStore(session.stored);
    next.Load();
    reloaded := next.loggedMeals;
  }
}
