/** MainActivity: routing of the launch intent, the season picture of the
    drawer header, the preference-change listener, and the small state machine
    over `settingHasChanged` and `clickedItem` that the drawer callbacks drive. */
module MainActivity {
  import opened Preferences
  import opened LanguageCascade

  // Destination and menu ids. The values are placeholders: the model relies only
  // on their being distinct and non-zero.
  const CALENDAR := 1
  const COMPASS := 2
  const LEVEL := 3
  const CONVERTER := 4
  const SETTINGS := 5
  const DEVICE_INFO := 6
  const EXIT := 7

  /** The destination an intent action opens; every other action, and none, opens the calendar */
  function LaunchDestination(action: Option<string>): (id: int)
    ensures id == COMPASS <==> action == Some("COMPASS")
    ensures id == LEVEL <==> action == Some("LEVEL")
    ensures id == CONVERTER <==> action == Some("CONVERTER")
    ensures id == SETTINGS <==> action == Some("SETTINGS")
    ensures id == DEVICE_INFO <==> action == Some("DEVICE")
    ensures id == CALENDAR <==>
              action !in {Some("COMPASS"), Some("LEVEL"), Some("CONVERTER"), Some("SETTINGS"), Some("DEVICE")}
  {
    match action
    case Some("COMPASS") => COMPASS
    case Some("LEVEL") => LEVEL
    case Some("CONVERTER") => CONVERTER
    case Some("SETTINGS") => SETTINGS
    case Some("DEVICE") => DEVICE_INFO
    case _ => CALENDAR
  }

  /** The level has no menu entry of its own: navigating to it checks the compass entry */
  function MenuEntryFor(id: int): (entry: int)
    ensures entry == COMPASS <==> id == COMPASS || id == LEVEL
    ensures id != LEVEL ==> entry == id
    ensures entry != LEVEL
  {
    if id == LEVEL then COMPASS else id
  }

  // ----- season picture -----

  /** Kotlin's `/` on Int truncates toward zero */
  function KotlinDiv(a: int, b: int): int
    requires b != 0
  {
    if a >= 0 then a / b else -((-a) / b)
  }

  /** Kotlin's `%` on Int takes the sign of the dividend */
  function KotlinRem(a: int, b: int): int
    requires b != 0
  {
    a - b * KotlinDiv(a, b)
  }

  /** A missing coordinate counts as latitude 1.0, so as northern */
  predicate IsSouthern(latitude: Option<real>) {
    latitude.OrElse(1.0) < 0.0
  }

  /** The season index of the drawer header: the quarter of the Shamsi year,
      shifted by two seasons south of the equator */
  function SeasonIndex(shamsiMonth: int, latitude: Option<real>): (season: int)
    ensures 1 <= shamsiMonth <= 12 ==> 0 <= season <= 3
    ensures 1 <= shamsiMonth <= 12 && !IsSouthern(latitude) ==> 3 * season < shamsiMonth <= 3 * season + 3
    ensures 1 <= shamsiMonth <= 12 && IsSouthern(latitude) ==>
              3 * ((season + 2) % 4) < shamsiMonth <= 3 * ((season + 2) % 4) + 3
  {
    var season := KotlinDiv(shamsiMonth - 1, 3);
    if IsSouthern(latitude) then KotlinRem(season + 2, 4) else season
  }

  datatype SeasonImage = Spring | Summer | Fall | Winter

  /** The `when` over the season index: 0 to 2 pick their picture, anything else winter */
  function SeasonImageFor(season: int): (image: SeasonImage)
    ensures image == Spring <==> season == 0
    ensures image == Summer <==> season == 1
    ensures image == Fall <==> season == 2
    ensures image == Winter <==> season !in {0, 1, 2}
  {
    if season == 0 then Spring
    else if season == 1 then Summer
    else if season == 2 then Fall
    else Winter
  }

  function Opposite(image: SeasonImage): SeasonImage {
    match image
    case Spring => Fall
    case Summer => Winter
    case Fall => Spring
    case Winter => Summer
  }

  /** South of the equator the header shows the season opposite to the northern one */
  lemma SouthernSeasonIsOpposite(shamsiMonth: int, latitude: real)
    requires 1 <= shamsiMonth <= 12 && latitude < 0.0
    ensures SeasonImageFor(SeasonIndex(shamsiMonth, Some(latitude)))
            == Opposite(SeasonImageFor(SeasonIndex(shamsiMonth, None)))
  {
  }

  // ----- the activity -----

  datatype Intent = Intent(action: Option<string>)

  class Activity {
    /** The app's default preference store */
    const prefs: SharedPreferences
    /** The ids that have an entry in the navigation drawer's menu */
    const menuItems: set<int>

    var intent: Intent
    var settingHasChanged: bool
    var clickedItem: int
    /** The menu entry shown as checked, 0 when none is */
    var checkedItem: int
    /** The destinations handed to the navigation controller, in order */
    var navigations: seq<int>
    /** How often navigateTo re-initialised the utilities and widgets */
    var refreshes: nat
    /** How often the drawer was asked to close */
    var drawerCloseRequests: nat
    /** The intents the activity restarted itself with */
    var restarts: seq<Intent>
    var finished: bool
    /** Set when a preference getter threw and the listener stopped */
    var crashed: bool

    /** The exit entry finishes the activity instead of being remembered */
    ghost predicate Valid()
      reads this
    {
      clickedItem != EXIT
    }

    constructor (prefs: SharedPreferences, menuItems: set<int>, intent: Intent)
      ensures Valid()
      ensures this.prefs == prefs && this.menuItems == menuItems && this.intent == intent
      ensures !settingHasChanged && clickedItem == 0 && checkedItem == 0
      ensures navigations == [] && refreshes == 0 && drawerCloseRequests == 0 && restarts == []
      ensures !finished && !crashed
    {
      this.prefs := prefs;
      this.menuItems := menuItems;
      this.intent := intent;
      settingHasChanged := false;
      clickedItem := 0;
      checkedItem := 0;
      navigations := [];
      refreshes := 0;
      drawerCloseRequests := 0;
      restarts := [];
      finished := false;
      crashed := false;
    }

    /** The destination the navigation controller shows, if any was navigated to */
    function CurrentDestination(): Option<int>
      reads this
    {
      if navigations == [] then None else Some(navigations[|navigations| - 1])
    }

    /** navigateTo: checks the menu entry, refreshes once after a settings change, navigates */
    method NavigateTo(id: int)
      modifies this`checkedItem, this`settingHasChanged, this`refreshes, this`navigations
      ensures !settingHasChanged
      ensures refreshes == old(refreshes) + (if old(settingHasChanged) then 1 else 0)
      ensures navigations == old(navigations) + [id]
      ensures checkedItem == if MenuEntryFor(id) in menuItems then MenuEntryFor(id) else old(checkedItem)
    {
      var entry := MenuEntryFor(id);
      if entry in menuItems {
        checkedItem := entry;
      }
      if settingHasChanged {
        refreshes := refreshes + 1;
        settingHasChanged := false;
      }
      navigations := navigations + [id];
    }

    /** The part of onCreate that routes the launch intent, then clears its action
        so that a restart does not repeat it */
    method RouteLaunchIntent()
      modifies this`intent, this`checkedItem, this`settingHasChanged, this`refreshes, this`navigations
      ensures navigations == old(navigations) + [LaunchDestination(old(intent).action)]
      ensures intent == Intent(Some(""))
      ensures LaunchDestination(intent.action) == CALENDAR
      ensures !settingHasChanged
      ensures refreshes == old(refreshes) + (if old(settingHasChanged) then 1 else 0)
      ensures checkedItem == if MenuEntryFor(LaunchDestination(old(intent).action)) in menuItems
                             then MenuEntryFor(LaunchDestination(old(intent).action)) else old(checkedItem)
    {
      NavigateTo(LaunchDestination(intent.action));
      intent := intent.(action := Some(""));
    }

    /** The part of onCreate that offers English once: when no language is stored
        and the offer was not made before, it is marked as made. */
    method OfferLanguageChange() returns (offered: bool)
      modifies prefs, this`crashed
      ensures offered <==> ShouldOfferLanguageChange(old(prefs.values)) == Ok(true)
      ensures crashed <==> old(crashed) || ShouldOfferLanguageChange(old(prefs.values)).Err?
      ensures prefs.values ==
                if offered then old(prefs.values)[CHANGE_LANGUAGE_IS_PROMOTED_ONCE := Bool(true)]
                else old(prefs.values)
    {
      var should := ShouldOfferLanguageChange(prefs.values);
      if should.Err? {
        crashed := true;
        return false;
      }
      offered := should.value;
      if offered {
        prefs.Commit(map[CHANGE_LANGUAGE_IS_PROMOTED_ONCE := Bool(true)]);
        assert prefs.values == old(prefs.values)[CHANGE_LANGUAGE_IS_PROMOTED_ONCE := Bool(true)];
      }
    }

    /** The offer's "Settings" action */
    method AcceptOffer()
      modifies prefs
      ensures prefs.values == AcceptLanguageOffer(old(prefs.values))
    {
      prefs.Commit(LANGUAGE_OFFER_WRITES);
    }

    /** restartToSettings: the activity restarts with its intent's action set to "SETTINGS" */
    method RestartToSettings()
      modifies this`intent, this`restarts, this`finished
      ensures intent == old(intent).(action := Some("SETTINGS"))
      ensures restarts == old(restarts) + [intent]
      ensures LaunchDestination(intent.action) == SETTINGS
      ensures finished
    {
      intent := intent.(action := Some("SETTINGS"));
      finished := true;
      restarts := restarts + [intent];
    }

    /** The edit block run when the app language changed. A getter that throws
        leaves the edit uncommitted. */
    method ApplyLanguageChange() returns (ok: bool)
      modifies prefs
      ensures ok <==> Cascade(old(prefs.values)).Ok?
      ensures prefs.values == if ok then Cascade(old(prefs.values)).value else old(prefs.values)
    {
      var stored := GetString(prefs.values, PREF_APP_LANGUAGE);
      if stored.Err? {
        return false;
      }
      var plan := PlanFor(stored.value.OrElse(DEFAULT_APP_LANGUAGE));
      var pending: Store := map[PREF_PERSIAN_DIGITS := Bool(plan.persianDigits)];
      pending, ok := EditHolidays(prefs.values, plan, pending);
      if !ok {
        return;
      }
      pending := EditPreset(plan, pending);
      CascadeByPlan(old(prefs.values));
      MergeAssociates(map[PREF_PERSIAN_DIGITS := Bool(plan.persianDigits)],
                      HolidayPuts(plan, HolidaysOrEmpty(prefs.values)), PresetPuts(plan));
      prefs.Commit(pending);
    }

    /** onSharedPreferenceChanged: any change marks the settings as changed; a
        change of language runs the cascade; a change of language or theme
        restarts the activity into the settings. */
    method OnSharedPreferenceChanged(key: string)
      modifies prefs, this`settingHasChanged, this`crashed, this`intent, this`restarts, this`finished
      ensures settingHasChanged
      ensures key == PREF_APP_LANGUAGE ==>
                prefs.values == (if Cascade(old(prefs.values)).Ok? then Cascade(old(prefs.values)).value
                                 else old(prefs.values))
      ensures key != PREF_APP_LANGUAGE ==> prefs.values == old(prefs.values)
      ensures crashed <==> old(crashed) || (key == PREF_APP_LANGUAGE && Cascade(old(prefs.values)).Err?)
      ensures restarts == if (key == PREF_APP_LANGUAGE && Cascade(old(prefs.values)).Ok?) || key == PREF_THEME
                          then old(restarts) + [intent] else old(restarts)
      ensures restarts != old(restarts) ==> LaunchDestination(intent.action) == SETTINGS && finished
      ensures restarts == old(restarts) ==> intent == old(intent) && finished == old(finished)
    {
      settingHasChanged := true;
      if key == PREF_APP_LANGUAGE {
        var ok := ApplyLanguageChange();
        if !ok {
          crashed := true;
          return;
        }
      }
      if key == PREF_APP_LANGUAGE || key == PREF_THEME {
        RestartToSettings();
      }
    }

    /** onNavigationItemSelected: exit finishes; any other entry closes the drawer
        and is remembered for when it has closed */
    method OnNavigationItemSelected(itemId: int) returns (handled: bool)
      requires Valid()
      modifies this`finished, this`clickedItem, this`drawerCloseRequests
      ensures Valid()
      ensures handled
      ensures itemId == EXIT ==>
                finished && clickedItem == old(clickedItem) && drawerCloseRequests == old(drawerCloseRequests)
      ensures itemId != EXIT ==>
                clickedItem == itemId && drawerCloseRequests == old(drawerCloseRequests) + 1 &&
                finished == old(finished)
    {
      if itemId == EXIT {
        finished := true;
        return true;
      }
      drawerCloseRequests := drawerCloseRequests + 1;
      clickedItem := itemId;
      handled := true;
    }

    /** onDrawerClosed: navigates to the remembered entry, if any, and forgets it */
    method OnDrawerClosed()
      requires Valid()
      modifies this`clickedItem, this`checkedItem, this`settingHasChanged, this`refreshes, this`navigations
      ensures Valid()
      ensures clickedItem == 0
      ensures old(clickedItem) != 0 ==>
                navigations == old(navigations) + [old(clickedItem)] && !settingHasChanged &&
                refreshes == old(refreshes) + (if old(settingHasChanged) then 1 else 0) &&
                checkedItem == if MenuEntryFor(old(clickedItem)) in menuItems
                               then MenuEntryFor(old(clickedItem)) else old(checkedItem)
      ensures old(clickedItem) == 0 ==>
                navigations == old(navigations) && settingHasChanged == old(settingHasChanged) &&
                refreshes == old(refreshes) && checkedItem == old(checkedItem)
      ensures |old(navigations)| <= |navigations| && EXIT !in navigations[|old(navigations)|..]
    {
      if clickedItem != 0 {
        NavigateTo(clickedItem);
        clickedItem := 0;
      }
    }

    /** onBackPressed: closes an open drawer, else lets an open search close, else
        leaves from the calendar and goes back to it from anywhere else */
    method OnBackPressed(drawerOpen: bool, searchClosed: bool)
      modifies this`drawerCloseRequests, this`finished, this`checkedItem, this`settingHasChanged,
               this`refreshes, this`navigations
      ensures drawerOpen ==> drawerCloseRequests == old(drawerCloseRequests) + 1 && navigations == old(navigations)
      ensures !drawerOpen ==> drawerCloseRequests == old(drawerCloseRequests)
      ensures !drawerOpen && !searchClosed && old(CurrentDestination()) == Some(CALENDAR) ==>
                finished && navigations == old(navigations)
      ensures !drawerOpen && !searchClosed && old(CurrentDestination()) != Some(CALENDAR) ==>
                navigations == old(navigations) + [CALENDAR] && finished == old(finished)
      ensures (drawerOpen || searchClosed) ==> navigations == old(navigations) && finished == old(finished)
      ensures navigations == old(navigations) ==>
                settingHasChanged == old(settingHasChanged) && refreshes == old(refreshes) &&
                checkedItem == old(checkedItem)
      ensures navigations != old(navigations) ==>
                !settingHasChanged && refreshes == old(refreshes) + (if old(settingHasChanged) then 1 else 0) &&
                checkedItem == (if CALENDAR in menuItems then CALENDAR else old(checkedItem))
    {
      if drawerOpen {
        drawerCloseRequests := drawerCloseRequests + 1;
      } else if !searchClosed {
        if CurrentDestination() == Some(CALENDAR) {
          finished := true;
        } else {
          NavigateTo(CALENDAR);
        }
      }
    }
  }

  /** The three guarded holiday puts of the edit block. Each reads the committed
      store, not the puts pending before it. */
  method EditHolidays(store: Store, plan: Plan, pending: Store) returns (edited: Store, ok: bool)
    ensures ok <==> HolidayActions(plan) == 0 || CurrentHolidays(store).Ok?
    ensures ok ==> edited == pending + HolidayPuts(plan, HolidaysOrEmpty(store))
  {
    edited, ok := pending, true;
    if plan.changeToAfghanistanHolidays {
      var read := GetStringSet(store, PREF_HOLIDAY_TYPES);
      if read.Err? {
        return pending, false;
      }
      var currentHolidays := read.value.OrElse({});
      SingletonByCount(currentHolidays, IRAN_HOLIDAYS);
      if |currentHolidays| == 0 || (|currentHolidays| == 1 && IRAN_HOLIDAYS in currentHolidays) {
        edited := edited[PREF_HOLIDAY_TYPES := StrSet({AFGHANISTAN_HOLIDAYS})];
      }
    }
    if plan.changeToIranEvents {
      var read := GetStringSet(store, PREF_HOLIDAY_TYPES);
      if read.Err? {
        return pending, false;
      }
      var currentHolidays := read.value.OrElse({});
      SingletonByCount(currentHolidays, AFGHANISTAN_HOLIDAYS);
      if |currentHolidays| == 0 || (|currentHolidays| == 1 && AFGHANISTAN_HOLIDAYS in currentHolidays) {
        edited := edited[PREF_HOLIDAY_TYPES := StrSet({IRAN_HOLIDAYS})];
      }
    }
    if plan.removeAllEvents {
      var read := GetStringSet(store, PREF_HOLIDAY_TYPES);
      if read.Err? {
        return pending, false;
      }
      var currentHolidays := read.value.OrElse({});
      SingletonByCount(currentHolidays, IRAN_HOLIDAYS);
      if |currentHolidays| == 0 || (|currentHolidays| == 1 && IRAN_HOLIDAYS in currentHolidays) {
        edited := edited[PREF_HOLIDAY_TYPES := StrSet({})];
      }
    }
  }

  /** The `when` over the calendar flags inside the edit block */
  method EditPreset(plan: Plan, pending: Store) returns (edited: Store)
    ensures edited == pending + PresetPuts(plan)
  {
    if plan.changeToGregorianCalendar {
      edited := pending[PREF_MAIN_CALENDAR_KEY := Str("GREGORIAN")]
                       [PREF_OTHER_CALENDARS_KEY := Str("ISLAMIC,SHAMSI")]
                       [PREF_WEEK_START := Str("1")]
                       [PREF_WEEK_ENDS := StrSet({"1"})];
      assert JoinNames([Islamic, Shamsi]) == "ISLAMIC,SHAMSI";
    } else if plan.changeToIslamicCalendar {
      edited := pending[PREF_MAIN_CALENDAR_KEY := Str("ISLAMIC")]
                       [PREF_OTHER_CALENDARS_KEY := Str("GREGORIAN,SHAMSI")]
                       [PREF_WEEK_START := Str(DEFAULT_WEEK_START)]
                       [PREF_WEEK_ENDS := StrSet(DEFAULT_WEEK_ENDS)];
      assert JoinNames([Gregorian, Shamsi]) == "GREGORIAN,SHAMSI";
    } else if plan.changeToPersianCalendar {
      edited := pending[PREF_MAIN_CALENDAR_KEY := Str("SHAMSI")]
                       [PREF_OTHER_CALENDARS_KEY := Str("GREGORIAN,ISLAMIC")]
                       [PREF_WEEK_START := Str(DEFAULT_WEEK_START)]
                       [PREF_WEEK_ENDS := StrSet(DEFAULT_WEEK_ENDS)];
      assert JoinNames([Gregorian, Islamic]) == "GREGORIAN,ISLAMIC";
    } else {
      edited := pending;
    }
  }

  /** Kotlin's `size == 1 && contains(x)` is exactly "the set is {x}" */
  lemma SingletonByCount(s: set<string>, x: string)
    ensures (|s| == 0 <==> s == {})
    ensures (|s| == 1 && x in s) <==> s == {x}
  {
    if |s| == 1 && x in s {
      assert |s - {x}| == 0;
      assert s == {x} + (s - {x});
    }
  }
}
