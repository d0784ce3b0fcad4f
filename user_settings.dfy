/** The user settings store: the profile and the daily goals, merged with
    defaults on load, patched field by field, and written to browser storage
    after every change. A `null` and an absent (`undefined`) field are both
    `None`. */
module UserSettings {
  import opened Wrappers
  import opened Sequences
  import opened Nutrition

  /** `DEFAULT_GOALS`, in the declared field order. */
  const DefaultGoals: Nutrients :=
    Nutrients(2000.0, 120.0, 250.0, 70.0, 30.0, 2300.0, 50.0, 3500.0, 90.0, 1000.0, 18.0)

  datatype GenderValue = Male | Female

  datatype Profile = Profile(
    name: Option<string>,
    avatar: Option<string>,
    dietaryPreference: Option<string>,
    allergies: Option<string>,
    likes: Option<string>,
    dislikes: Option<string>,
    positiveFeedbackOn: Option<seq<string>>,
    negativeFeedbackOn: Option<seq<string>>,
    weight: Option<real>,
    height: Option<real>,
    gender: Option<GenderValue>)

  datatype Settings = Settings(profile: Profile, dailyGoals: Nutrients)

  /** `DEFAULT_SETTINGS.profile`: every field null, both feedback lists empty. */
  const DefaultProfile: Profile :=
    Profile(None, None, None, None, None, None, Some([]), Some([]), None, None, None)

  const DefaultSettings: Settings := Settings(DefaultProfile, DefaultGoals)

  /** The defaults as declared: the eleven goals in order, no profile data and
      two empty feedback lists. */
  lemma DefaultsAsDeclared()
    ensures var goals := [Get(DefaultSettings.dailyGoals, Calories), Get(DefaultSettings.dailyGoals, Protein),
                          Get(DefaultSettings.dailyGoals, Carbs), Get(DefaultSettings.dailyGoals, Fats),
                          Get(DefaultSettings.dailyGoals, Fiber), Get(DefaultSettings.dailyGoals, Sodium),
                          Get(DefaultSettings.dailyGoals, Sugar), Get(DefaultSettings.dailyGoals, Potassium),
                          Get(DefaultSettings.dailyGoals, VitaminC), Get(DefaultSettings.dailyGoals, Calcium),
                          Get(DefaultSettings.dailyGoals, Iron)];
      goals == [2000.0, 120.0, 250.0, 70.0, 30.0, 2300.0, 50.0, 3500.0, 90.0, 1000.0, 18.0]
    ensures forall k :: Get(DefaultSettings.dailyGoals, k) > 0.0
    ensures DefaultSettings.profile.positiveFeedbackOn == Some([])
    ensures DefaultSettings.profile.negativeFeedbackOn == Some([])
  {
  }

  // ---------------------------------------------------------------------------
  // A uniform view of the profile's fields

  datatype ProfileKey =
    Name | Avatar | DietaryPreference | Allergies | Likes | Dislikes
    | PositiveFeedbackOn | NegativeFeedbackOn | Weight | Height | Gender

  datatype ProfileValue =
    | Text(text: Option<string>)
    | Dishes(dishes: Option<seq<string>>)
    | Number(number: Option<real>)
    | Choice(choice: Option<GenderValue>)

  /** `profile[key]`. */
  function Field(p: Profile, k: ProfileKey): ProfileValue {
    match k
    case Name => Text(p.name)
    case Avatar => Text(p.avatar)
    case DietaryPreference => Text(p.dietaryPreference)
    case Allergies => Text(p.allergies)
    case Likes => Text(p.likes)
    case Dislikes => Text(p.dislikes)
    case PositiveFeedbackOn => Dishes(p.positiveFeedbackOn)
    case NegativeFeedbackOn => Dishes(p.negativeFeedbackOn)
    case Weight => Number(p.weight)
    case Height => Number(p.height)
    case Gender => Choice(p.gender)
  }

  /** Two profiles are equal when every field is. */
  lemma ProfileExtensionality(a: Profile, b: Profile)
    requires forall k :: Field(a, k) == Field(b, k)
    ensures a == b
  {
    assert Field(a, Name) == Field(b, Name) && Field(a, Avatar) == Field(b, Avatar);
    assert Field(a, DietaryPreference) == Field(b, DietaryPreference);
    assert Field(a, Allergies) == Field(b, Allergies) && Field(a, Likes) == Field(b, Likes);
    assert Field(a, Dislikes) == Field(b, Dislikes);
    assert Field(a, PositiveFeedbackOn) == Field(b, PositiveFeedbackOn);
    assert Field(a, NegativeFeedbackOn) == Field(b, NegativeFeedbackOn);
    assert Field(a, Weight) == Field(b, Weight) && Field(a, Height) == Field(b, Height);
    assert Field(a, Gender) == Field(b, Gender);
  }

  /** `Partial<UserProfile>`: each field either absent (`None`) or supplied,
      and a supplied field may itself be null. */
  datatype PartialProfile = PartialProfile(
    name: Option<Option<string>>,
    avatar: Option<Option<string>>,
    dietaryPreference: Option<Option<string>>,
    allergies: Option<Option<string>>,
    likes: Option<Option<string>>,
    dislikes: Option<Option<string>>,
    positiveFeedbackOn: Option<Option<seq<string>>>,
    negativeFeedbackOn: Option<Option<seq<string>>>,
    weight: Option<Option<real>>,
    height: Option<Option<real>>,
    gender: Option<Option<GenderValue>>)

  /** The partial profile that supplies nothing (`{}`). */
  const NoFields: PartialProfile :=
    PartialProfile(None, None, None, None, None, None, None, None, None, None, None)

  /** The value a partial profile supplies for field `k`, if any. */
  function Supplied(p: PartialProfile, k: ProfileKey): Option<ProfileValue> {
    match k
    case Name => if p.name.Some? then Some(Text(p.name.value)) else None
    case Avatar => if p.avatar.Some? then Some(Text(p.avatar.value)) else None
    case DietaryPreference => if p.dietaryPreference.Some? then Some(Text(p.dietaryPreference.value)) else None
    case Allergies => if p.allergies.Some? then Some(Text(p.allergies.value)) else None
    case Likes => if p.likes.Some? then Some(Text(p.likes.value)) else None
    case Dislikes => if p.dislikes.Some? then Some(Text(p.dislikes.value)) else None
    case PositiveFeedbackOn =>
      if p.positiveFeedbackOn.Some? then Some(Dishes(p.positiveFeedbackOn.value)) else None
    case NegativeFeedbackOn =>
      if p.negativeFeedbackOn.Some? then Some(Dishes(p.negativeFeedbackOn.value)) else None
    case Weight => if p.weight.Some? then Some(Number(p.weight.value)) else None
    case Height => if p.height.Some? then Some(Number(p.height.value)) else None
    case Gender => if p.gender.Some? then Some(Choice(p.gender.value)) else None
  }

  /** A whole profile as a partial one that supplies every field. */
  function Whole(p: Profile): (r: PartialProfile)
    ensures forall k :: Supplied(r, k) == Some(Field(p, k))
  {
    PartialProfile(Some(p.name), Some(p.avatar), Some(p.dietaryPreference), Some(p.allergies),
                   Some(p.likes), Some(p.dislikes), Some(p.positiveFeedbackOn),
                   Some(p.negativeFeedbackOn), Some(p.weight), Some(p.height), Some(p.gender))
  }

  // ---------------------------------------------------------------------------
  // Spreads

  /** `{ ...profile, ...patch }`: every supplied field overrides, every other
      field keeps its value. */
  function PatchProfile(profile: Profile, patch: PartialProfile): (r: Profile)
    ensures forall k :: Field(r, k) == if Supplied(patch, k).Some? then Supplied(patch, k).value else Field(profile, k)
  {
    Profile(
      patch.name.GetOr(profile.name),
      patch.avatar.GetOr(profile.avatar),
      patch.dietaryPreference.GetOr(profile.dietaryPreference),
      patch.allergies.GetOr(profile.allergies),
      patch.likes.GetOr(profile.likes),
      patch.dislikes.GetOr(profile.dislikes),
      patch.positiveFeedbackOn.GetOr(profile.positiveFeedbackOn),
      patch.negativeFeedbackOn.GetOr(profile.negativeFeedbackOn),
      patch.weight.GetOr(profile.weight),
      patch.height.GetOr(profile.height),
      patch.gender.GetOr(profile.gender))
  }

  /** `{ ...first, ...second }` on partial profiles: the later one wins where both supply a field. */
  function Combine(first: PartialProfile, second: PartialProfile): PartialProfile {
    PartialProfile(
      if second.name.Some? then second.name else first.name,
      if second.avatar.Some? then second.avatar else first.avatar,
      if second.dietaryPreference.Some? then second.dietaryPreference else first.dietaryPreference,
      if second.allergies.Some? then second.allergies else first.allergies,
      if second.likes.Some? then second.likes else first.likes,
      if second.dislikes.Some? then second.dislikes else first.dislikes,
      if second.positiveFeedbackOn.Some? then second.positiveFeedbackOn else first.positiveFeedbackOn,
      if second.negativeFeedbackOn.Some? then second.negativeFeedbackOn else first.negativeFeedbackOn,
      if second.weight.Some? then second.weight else first.weight,
      if second.height.Some? then second.height else first.height,
      if second.gender.Some? then second.gender else first.gender)
  }

  /** A combined partial profile supplies the later value where both supply a
      field, and otherwise whatever either supplies. */
  lemma CombineSupplied(first: PartialProfile, second: PartialProfile, k: ProfileKey)
    ensures Supplied(Combine(first, second), k) ==
      if Supplied(second, k).Some? then Supplied(second, k) else Supplied(first, k)
  {
    match k
    case Name => case Avatar => case DietaryPreference => case Allergies => case Likes =>
    case Dislikes => case PositiveFeedbackOn => case NegativeFeedbackOn => case Weight =>
    case Height => case Gender =>
  }

  /** Patching with nothing changes nothing; patching with a whole profile replaces it. */
  lemma PatchProfileIdentity(profile: Profile, other: Profile)
    ensures PatchProfile(profile, NoFields) == profile
    ensures PatchProfile(profile, Whole(other)) == other
  {
    var r := PatchProfile(profile, NoFields);
    assert forall k :: Supplied(NoFields, k) == None;
    ProfileExtensionality(r, profile);
    ProfileExtensionality(PatchProfile(profile, Whole(other)), other);
  }

  /** Two successive patches are the one patch that combines them. */
  lemma PatchProfileTwice(profile: Profile, first: PartialProfile, second: PartialProfile)
    ensures PatchProfile(PatchProfile(profile, first), second) == PatchProfile(profile, Combine(first, second))
  {
    forall k ensures Supplied(Combine(first, second), k) ==
      if Supplied(second, k).Some? then Supplied(second, k) else Supplied(first, k)
    {
      CombineSupplied(first, second, k);
    }
    ProfileExtensionality(PatchProfile(PatchProfile(profile, first), second), PatchProfile(profile, Combine(first, second)));
  }

  /** `Partial<DailyGoals>`: the goals supplied, by field. */
  type PartialGoals = map<Nutrient, real>

  /** `{ ...goals, ...patch }`: every supplied goal overrides, every other goal is kept. */
  function PatchGoals(goals: Nutrients, patch: PartialGoals): (r: Nutrients)
    ensures forall k :: Get(r, k) == if k in patch then patch[k] else Get(goals, k)
  {
    Build(k => if k in patch then patch[k] else Get(goals, k))
  }

  /** Two successive goal patches are the one patch in which the later supplied value wins. */
  lemma PatchGoalsTwice(goals: Nutrients, first: PartialGoals, second: PartialGoals)
    ensures PatchGoals(PatchGoals(goals, first), second) == PatchGoals(goals, first + second)
  {
    Extensionality(PatchGoals(PatchGoals(goals, first), second), PatchGoals(goals, first + second));
  }

  /** Patching with no goals changes nothing. */
  lemma PatchGoalsEmpty(goals: Nutrients)
    ensures PatchGoals(goals, map[]) == goals
  {
    Extensionality(PatchGoals(goals, map[]), goals);
  }

  // ---------------------------------------------------------------------------
  // Feedback lists

  /** `Array.from(new Set([...(list || []), dishName]))`. */
  function AddFeedback(list: Option<seq<string>>, dish: string): (r: seq<string>)
    ensures dish in r
    ensures NoDuplicates(r)
    ensures forall x :: x in r <==> x in list.GetOr([]) || x == dish
    ensures NoDuplicates(list.GetOr([])) ==>
      r == if dish in list.GetOr([]) then list.GetOr([]) else list.GetOr([]) + [dish]
  {
    var prior := list.GetOr([]);
    assert NoDuplicates(prior) ==> Distinct(prior + [dish]) == if dish in prior then prior else prior + [dish] by {
      if NoDuplicates(prior) { DistinctAppend(prior, dish); }
    }
    Distinct(prior + [dish])
  }

  /** Giving the same feedback twice is giving it once. */
  lemma AddFeedbackIdempotent(list: Option<seq<string>>, dish: string)
    ensures AddFeedback(Some(AddFeedback(list, dish)), dish) == AddFeedback(list, dish)
  {
  }

  /** `addPositiveFeedback`: the dish joins the positive list; nothing else changes. */
  function WithPositiveFeedback(s: Settings, dish: string): (r: Settings)
    ensures r.dailyGoals == s.dailyGoals
    ensures r.profile.positiveFeedbackOn == Some(AddFeedback(s.profile.positiveFeedbackOn, dish))
    ensures forall k :: k != PositiveFeedbackOn ==> Field(r.profile, k) == Field(s.profile, k)
  {
    Settings(s.profile.(positiveFeedbackOn := Some(AddFeedback(s.profile.positiveFeedbackOn, dish))), s.dailyGoals)
  }

  /** `addNegativeFeedback`: the dish joins the negative list; nothing else,
      in particular not the positive list, changes. */
  function WithNegativeFeedback(s: Settings, dish: string): (r: Settings)
    ensures r.dailyGoals == s.dailyGoals
    ensures r.profile.negativeFeedbackOn == Some(AddFeedback(s.profile.negativeFeedbackOn, dish))
    ensures forall k :: k != NegativeFeedbackOn ==> Field(r.profile, k) == Field(s.profile, k)
  {
    Settings(s.profile.(negativeFeedbackOn := Some(AddFeedback(s.profile.negativeFeedbackOn, dish))), s.dailyGoals)
  }

  /** Nothing keeps a dish out of both lists: liked, then disliked, it is in both. */
  lemma DishInBothLists(s: Settings, dish: string)
    ensures var r := WithNegativeFeedback(WithPositiveFeedback(s, dish), dish);
      dish in r.profile.positiveFeedbackOn.value && dish in r.profile.negativeFeedbackOn.value
  {
    var r := WithNegativeFeedback(WithPositiveFeedback(s, dish), dish);
    assert Field(r.profile, PositiveFeedbackOn) == Field(WithPositiveFeedback(s, dish).profile, PositiveFeedbackOn);
  }

  // ---------------------------------------------------------------------------
  // Storage

  /** What `localStorage.getItem('nutrisnap_user_settings')` holds: text
      `JSON.parse` rejects, or an object whose `profile` and `dailyGoals`
      keys may each be absent and whose fields may each be missing. */
  datatype StoredSettings =
    | Malformed
    | Parsed(profile: Option<PartialProfile>, dailyGoals: Option<PartialGoals>)

  /** Every field name of the goals. */
  const AllNutrients: set<Nutrient> :=
    {Calories, Protein, Carbs, Fats, Fiber, Sodium, Sugar, Potassium, VitaminC, Calcium, Iron}

  lemma EveryNutrientListed(k: Nutrient)
    ensures k in AllNutrients
  {
    match k
    case Calories => case Protein => case Carbs => case Fats => case Fiber => case Sodium =>
    case Sugar => case Potassium => case VitaminC => case Calcium => case Iron =>
  }

  /** The goals as a stored object with every field present. */
  function GoalsObject(goals: Nutrients): (r: PartialGoals)
    ensures forall k :: k in r && r[k] == Get(goals, k)
  {
    assert forall k: Nutrient :: k in AllNutrients by {
      forall k: Nutrient ensures k in AllNutrients { EveryNutrientListed(k); }
    }
    map k | k in AllNutrients :: Get(goals, k)
  }

  /** `JSON.stringify(settings)`: both objects written with every field. */
  function Serialize(s: Settings): (r: StoredSettings)
    ensures r.Parsed? && r.profile.Some? && r.dailyGoals.Some?
    ensures forall k :: Supplied(r.profile.value, k) == Some(Field(s.profile, k))
    ensures forall k :: k in r.dailyGoals.value && r.dailyGoals.value[k] == Get(s.dailyGoals, k)
  {
    Parsed(Some(Whole(s.profile)), Some(GoalsObject(s.dailyGoals)))
  }

  /** The mount-time merge of stored settings into the current ones: the
      profile is `{ ...DEFAULT_SETTINGS.profile, ...current.profile,
      ...stored.profile }` and the goals `{ ...current.dailyGoals,
      ...stored.dailyGoals }`. Every stored field overrides; every field
      absent from storage keeps its current value. */
  function LoadMerge(current: Settings, stored: StoredSettings): (r: Settings)
    requires stored.Parsed?
    ensures (forall k :: Field(r.profile, k) ==
               if stored.profile.Some? && Supplied(stored.profile.value, k).Some?
               then Supplied(stored.profile.value, k).value else Field(current.profile, k))
    ensures (forall k :: Get(r.dailyGoals, k) ==
               if stored.dailyGoals.Some? && k in stored.dailyGoals.value
               then stored.dailyGoals.value[k] else Get(current.dailyGoals, k))
  {
    var withDefaults := PatchProfile(DefaultProfile, Whole(current.profile));
    Settings(PatchProfile(withDefaults, stored.profile.GetOr(NoFields)),
             PatchGoals(current.dailyGoals, stored.dailyGoals.GetOr(map[])))
  }

  /** Storage holding nothing more than empty objects leaves the settings as they are. */
  lemma LoadNothingStored(current: Settings)
    ensures LoadMerge(current, Parsed(None, None)) == current
    ensures LoadMerge(current, Parsed(Some(NoFields), Some(map[]))) == current
  {
    ProfileExtensionality(LoadMerge(current, Parsed(None, None)).profile, current.profile);
    Extensionality(LoadMerge(current, Parsed(None, None)).dailyGoals, current.dailyGoals);
  }

  /** Loading what was saved restores exactly the saved settings, whatever the current ones. */
  lemma LoadSavedRoundTrip(current: Settings, saved: Settings)
    ensures LoadMerge(current, Serialize(saved)) == saved
  {
    var r := LoadMerge(current, Serialize(saved));
    ProfileExtensionality(r.profile, saved.profile);
    Extensionality(r.dailyGoals, saved.dailyGoals);
  }

  class UserSettingsStore {
    /** The `settings` state. */
    var settings: Settings
    /** The storage item; `None` when nothing (or the empty text) is stored under the key. */
    var stored: Option<StoredSettings>

    /** The provider mounts with the defaults over whatever storage holds. */
    constructor(storage: Option<StoredSettings>)
      ensures settings == DefaultSettings && stored == storage
    {
      settings := DefaultSettings;
      stored := storage;
    }

    /** The mount effect: stored settings are merged into the current ones;
        nothing stored or a parse failure leaves them unchanged. Storage is only read. */
    method Load()
      modifies this
      ensures stored == old(stored)
      ensures old(stored).Some? && old(stored).value.Parsed? ==> settings == LoadMerge(old(settings), old(stored).value)
      ensures old(stored).None? || old(stored).value.Malformed? ==> settings == old(settings)
    {
      if stored.Some? && stored.value.Parsed? {
        settings := LoadMerge(settings, stored.value);
      }
    }

    /** `saveSettings`: a successful save writes exactly `s`; a failed one writes nothing. */
    method Save(s: Settings, saveSucceeds: bool)
      modifies this
      ensures settings == old(settings)
      ensures stored == if saveSucceeds then Some(Serialize(s)) else old(stored)
    {
      if saveSucceeds {
        stored := Some(Serialize(s));
      }
    }

    /** `updateGoals`: exactly the supplied goals change; the profile does not. */
    method UpdateGoals(newGoals: PartialGoals, saveSucceeds: bool)
      modifies this
      ensures settings == Settings(old(settings).profile, PatchGoals(old(settings).dailyGoals, newGoals))
      ensures stored == if saveSucceeds then Some(Serialize(settings)) else old(stored)
    {
      var updated := Settings(settings.profile, PatchGoals(settings.dailyGoals, newGoals));
      Save(updated, saveSucceeds);
      settings := updated;
    }

    /** `updateProfile`: exactly the supplied profile fields change; the goals do not. */
    method UpdateProfile(newProfile: PartialProfile, saveSucceeds: bool)
      modifies this
      ensures settings == Settings(PatchProfile(old(settings).profile, newProfile), old(settings).dailyGoals)
      ensures stored == if saveSucceeds then Some(Serialize(settings)) else old(stored)
    {
      var updated := Settings(PatchProfile(settings.profile, newProfile), settings.dailyGoals);
      Save(updated, saveSucceeds);
      settings := updated;
    }

    method AddPositiveFeedback(dishName: string, saveSucceeds: bool)
      modifies this
      ensures settings == WithPositiveFeedback(old(settings), dishName)
      ensures stored == if saveSucceeds then Some(Serialize(settings)) else old(stored)
    {
      var updated := WithPositiveFeedback(settings, dishName);
      Save(updated, saveSucceeds);
      settings := updated;
    }

    method AddNegativeFeedback(dishName: string, saveSucceeds: bool)
      modifies this
      ensures settings == WithNegativeFeedback(old(settings), dishName)
      ensures stored == if saveSucceeds then Some(Serialize(settings)) else old(stored)
    {
      var updated := WithNegativeFeedback(settings, dishName);
      Save(updated, saveSucceeds);
      settings := updated;
    }
  }

  /** A session that loads and updates its goals with a successful save;
      then a reload (a new store over the same storage) sees exactly the
      settings the first session ended with. */
  method ReloadAfterUpdate(storage: Option<StoredSettings>, newGoals: PartialGoals)
    returns (saved: Settings, reloaded: Settings)
    ensures reloaded == saved
    ensures forall k :: k in newGoals ==> Get(saved.dailyGoals, k) == newGoals[k]
  {
    var session := new UserSettingsStore(storage);
    session.Load();
    session.UpdateGoals(newGoals, true);
    saved := session.settings;
    var next := new UserSettingsStore(session.stored);
    next.Load();
    LoadSavedRoundTrip(DefaultSettings, saved);
    reloaded := next.settings;
  }
}
