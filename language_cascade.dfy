/** The language rules of MainActivity: the settings a newly chosen app language
    brings along (digits, main calendar, holiday set, week settings), the
    preference writes that follow from them, and the one-time offer to switch
    the app to English shown on first start. */
module LanguageCascade {
  import opened Preferences

  // Preference keys. Their spellings are placeholders: the model relies only on
  // their being pairwise distinct.
  const PREF_APP_LANGUAGE := "AppLanguage"
  const PREF_PERSIAN_DIGITS := "PersianDigits"
  const PREF_HOLIDAY_TYPES := "holiday_types"
  const PREF_MAIN_CALENDAR_KEY := "mainCalendarType"
  const PREF_OTHER_CALENDARS_KEY := "otherCalendarTypes"
  const PREF_WEEK_START := "WeekStart"
  const PREF_WEEK_ENDS := "WeekEnds"
  const PREF_THEME := "Theme"
  const CHANGE_LANGUAGE_IS_PROMOTED_ONCE := "CHANGE_LANGUAGE_IS_PROMOTED_ONCE"

  // Language codes, also placeholders that are only required to be distinct.
  const LANG_EN_US := "en-US"
  const LANG_JA := "ja"
  const LANG_AZB := "azb"
  const LANG_GLK := "glk"
  const LANG_FA := "fa"
  const LANG_EN_IR := "en"
  const LANG_UR := "ur"
  const LANG_AR := "ar"
  const LANG_FA_AF := "fa-AF"
  const LANG_PS := "ps"
  const DEFAULT_APP_LANGUAGE := LANG_FA

  const DEFAULT_WEEK_START := "0"
  const DEFAULT_WEEK_ENDS: set<string> := {"6"}

  const IRAN_HOLIDAYS := "iran_holidays"
  const AFGHANISTAN_HOLIDAYS := "afghanistan_holidays"

  /** The languages the table names explicitly */
  const LISTED_LANGUAGES: set<string> :=
    {LANG_EN_US, LANG_JA, LANG_AZB, LANG_GLK, LANG_FA, LANG_EN_IR, LANG_UR, LANG_AR, LANG_FA_AF, LANG_PS}

  /** The keys a language change may write */
  const CASCADE_KEYS: set<string> :=
    {PREF_PERSIAN_DIGITS, PREF_HOLIDAY_TYPES, PREF_MAIN_CALENDAR_KEY, PREF_OTHER_CALENDARS_KEY,
     PREF_WEEK_START, PREF_WEEK_ENDS}

  /** The flags the listener derives from the chosen language */
  datatype Plan = Plan(
    persianDigits: bool,
    changeToAfghanistanHolidays: bool,
    changeToIslamicCalendar: bool,
    changeToGregorianCalendar: bool,
    changeToPersianCalendar: bool,
    changeToIranEvents: bool,
    removeAllEvents: bool)

  function Count(b: bool): nat { if b then 1 else 0 }

  function HolidayActions(p: Plan): nat {
    Count(p.changeToAfghanistanHolidays) + Count(p.changeToIranEvents) + Count(p.removeAllEvents)
  }

  function CalendarActions(p: Plan): nat {
    Count(p.changeToGregorianCalendar) + Count(p.changeToIslamicCalendar) + Count(p.changeToPersianCalendar)
  }

  /** The `when` over the chosen language */
  function PlanFor(language: string): (p: Plan)
    ensures p.changeToIranEvents <==> language in {LANG_AZB, LANG_GLK, LANG_FA, LANG_EN_IR}
    ensures p.changeToAfghanistanHolidays <==> language in {LANG_FA_AF, LANG_PS}
    ensures p.removeAllEvents <==> language in {LANG_EN_US, LANG_JA}
    ensures p.changeToGregorianCalendar <==> language in {LANG_EN_US, LANG_JA, LANG_UR}
    ensures p.changeToIslamicCalendar <==> language == LANG_AR
    ensures p.changeToPersianCalendar <==> language in {LANG_AZB, LANG_GLK, LANG_FA, LANG_EN_IR, LANG_FA_AF, LANG_PS}
    ensures !p.persianDigits <==> language in {LANG_EN_US, LANG_EN_IR, LANG_UR}
    ensures HolidayActions(p) <= 1 && CalendarActions(p) <= 1
    ensures language !in LISTED_LANGUAGES <==>
              p == Plan(true, false, false, false, false, false, false)
  {
    if language == LANG_EN_US then
      Plan(persianDigits := false, changeToAfghanistanHolidays := false, changeToIslamicCalendar := false,
           changeToGregorianCalendar := true, changeToPersianCalendar := false, changeToIranEvents := false,
           removeAllEvents := true)
    else if language == LANG_JA then
      Plan(persianDigits := true, changeToAfghanistanHolidays := false, changeToIslamicCalendar := false,
           changeToGregorianCalendar := true, changeToPersianCalendar := false, changeToIranEvents := false,
           removeAllEvents := true)
    else if language in {LANG_AZB, LANG_GLK, LANG_FA} then
      Plan(persianDigits := true, changeToAfghanistanHolidays := false, changeToIslamicCalendar := false,
           changeToGregorianCalendar := false, changeToPersianCalendar := true, changeToIranEvents := true,
           removeAllEvents := false)
    else if language == LANG_EN_IR then
      Plan(persianDigits := false, changeToAfghanistanHolidays := false, changeToIslamicCalendar := false,
           changeToGregorianCalendar := false, changeToPersianCalendar := true, changeToIranEvents := true,
           removeAllEvents := false)
    else if language == LANG_UR then
      Plan(persianDigits := false, changeToAfghanistanHolidays := false, changeToIslamicCalendar := false,
           changeToGregorianCalendar := true, changeToPersianCalendar := false, changeToIranEvents := false,
           removeAllEvents := false)
    else if language == LANG_AR then
      Plan(persianDigits := true, changeToAfghanistanHolidays := false, changeToIslamicCalendar := true,
           changeToGregorianCalendar := false, changeToPersianCalendar := false, changeToIranEvents := false,
           removeAllEvents := false)
    else if language == LANG_FA_AF || language == LANG_PS then
      Plan(persianDigits := true, changeToAfghanistanHolidays := true, changeToIslamicCalendar := false,
           changeToGregorianCalendar := false, changeToPersianCalendar := true, changeToIranEvents := false,
           removeAllEvents := false)
    else
      Plan(persianDigits := true, changeToAfghanistanHolidays := false, changeToIslamicCalendar := false,
           changeToGregorianCalendar := false, changeToPersianCalendar := false, changeToIranEvents := false,
           removeAllEvents := false)
  }

  /** A holiday set is replaced only when it is empty or holds exactly the one entry `only` */
  predicate EmptyOrJust(current: set<string>, only: string) {
    current == {} || current == {only}
  }

  /** The holiday set the edit block puts, if any. The three guarded puts run in
      source order, so a later one would override an earlier one. */
  function HolidayRewrite(plan: Plan, current: set<string>): (r: Option<set<string>>)
    ensures r.Some? ==> HolidayActions(plan) > 0 && |current| <= 1
    ensures r.Some? ==> r.value == {} || r.value == {IRAN_HOLIDAYS} || r.value == {AFGHANISTAN_HOLIDAYS}
    ensures r == Some({}) ==> plan.removeAllEvents && EmptyOrJust(current, IRAN_HOLIDAYS)
    ensures r == Some({IRAN_HOLIDAYS}) ==> plan.changeToIranEvents && EmptyOrJust(current, AFGHANISTAN_HOLIDAYS)
    ensures r == Some({AFGHANISTAN_HOLIDAYS}) ==>
              plan.changeToAfghanistanHolidays && EmptyOrJust(current, IRAN_HOLIDAYS)
  {
    if plan.removeAllEvents && EmptyOrJust(current, IRAN_HOLIDAYS) then Some({})
    else if plan.changeToIranEvents && EmptyOrJust(current, AFGHANISTAN_HOLIDAYS) then Some({IRAN_HOLIDAYS})
    else if plan.changeToAfghanistanHolidays && EmptyOrJust(current, IRAN_HOLIDAYS) then Some({AFGHANISTAN_HOLIDAYS})
    else None
  }

  datatype CalendarType = Shamsi | Islamic | Gregorian {
    function Name(): string {
      match this
      case Shamsi => "SHAMSI"
      case Islamic => "ISLAMIC"
      case Gregorian => "GREGORIAN"
    }
  }

  /** The order in which other calendars are listed: Gregorian, Islamic, Shamsi */
  function Rank(c: CalendarType): nat {
    match c
    case Gregorian => 0
    case Islamic => 1
    case Shamsi => 2
  }

  /** The comma-separated form in which the other calendars are stored */
  function JoinNames(cs: seq<CalendarType>): string {
    if |cs| == 0 then ""
    else if |cs| == 1 then cs[0].Name()
    else cs[0].Name() + "," + JoinNames(cs[1..])
  }

  /** The main calendar, the other calendars and the week settings one preset writes */
  datatype CalendarPreset = CalendarPreset(
    main: CalendarType, others: seq<CalendarType>, weekStart: string, weekEnds: set<string>)

  /** The `when` over the calendar flags: the first true flag picks the preset */
  function PresetFor(plan: Plan): (r: Option<CalendarPreset>)
    ensures r.Some? <==> CalendarActions(plan) > 0
    ensures r.Some? ==> |r.value.others| == 2 && r.value.main !in r.value.others
    ensures r.Some? ==> {r.value.main} + (set c | c in r.value.others) == {Shamsi, Islamic, Gregorian}
    ensures plan.changeToGregorianCalendar ==> r.value.main == Gregorian
    ensures !plan.changeToGregorianCalendar && plan.changeToIslamicCalendar ==> r.value.main == Islamic
    ensures (!plan.changeToGregorianCalendar && !plan.changeToIslamicCalendar && plan.changeToPersianCalendar)
              ==> r.value.main == Shamsi
    ensures r.Some? ==> Rank(r.value.others[0]) < Rank(r.value.others[1])
    ensures r.Some? && r.value.main == Gregorian ==> r.value.weekStart == "1" && r.value.weekEnds == {"1"}
    ensures r.Some? && r.value.main != Gregorian ==>
              r.value.weekStart == DEFAULT_WEEK_START && r.value.weekEnds == DEFAULT_WEEK_ENDS
  {
    if plan.changeToGregorianCalendar then
      Some(CalendarPreset(Gregorian, [Islamic, Shamsi], "1", {"1"}))
    else if plan.changeToIslamicCalendar then
      Some(CalendarPreset(Islamic, [Gregorian, Shamsi], DEFAULT_WEEK_START, DEFAULT_WEEK_ENDS))
    else if plan.changeToPersianCalendar then
      Some(CalendarPreset(Shamsi, [Gregorian, Islamic], DEFAULT_WEEK_START, DEFAULT_WEEK_ENDS))
    else None
  }

  function PresetWrites(preset: CalendarPreset): Store {
    map[PREF_MAIN_CALENDAR_KEY := Str(preset.main.Name()),
        PREF_OTHER_CALENDARS_KEY := Str(JoinNames(preset.others)),
        PREF_WEEK_START := Str(preset.weekStart),
        PREF_WEEK_ENDS := StrSet(preset.weekEnds)]
  }

  /** The holiday put of one edit block, if any */
  function HolidayPuts(plan: Plan, current: set<string>): Store {
    match HolidayRewrite(plan, current)
    case Some(h) => map[PREF_HOLIDAY_TYPES := StrSet(h)]
    case None => map[]
  }

  /** The calendar puts of one edit block, if any */
  function PresetPuts(plan: Plan): Store {
    match PresetFor(plan)
    case Some(preset) => PresetWrites(preset)
    case None => map[]
  }

  /** All puts of one edit block, in order, given the holiday set read before it */
  function LanguageWrites(plan: Plan, current: set<string>): Store {
    map[PREF_PERSIAN_DIGITS := Bool(plan.persianDigits)] + HolidayPuts(plan, current) + PresetPuts(plan)
  }

  /** The language in force: the stored one, or the default when none is stored */
  function ChosenLanguage(store: Store): (r: Result<string>)
    ensures r.Err? <==> PREF_APP_LANGUAGE in store && !store[PREF_APP_LANGUAGE].Str?
    ensures PREF_APP_LANGUAGE !in store ==> r == Ok(DEFAULT_APP_LANGUAGE)
    ensures PREF_APP_LANGUAGE in store && store[PREF_APP_LANGUAGE].Str? ==> r == Ok(store[PREF_APP_LANGUAGE].s)
  {
    match GetString(store, PREF_APP_LANGUAGE)
    case Ok(stored) => Ok(stored.OrElse(DEFAULT_APP_LANGUAGE))
    case Err(e) => Err(e)
  }

  /** The stored holiday set, empty when none is stored */
  function CurrentHolidays(store: Store): Result<set<string>> {
    match GetStringSet(store, PREF_HOLIDAY_TYPES)
    case Ok(stored) => Ok(stored.OrElse({}))
    case Err(e) => Err(e)
  }

  /** The holiday set as the edit block sees it when its read succeeds */
  function HolidaysOrEmpty(store: Store): set<string> {
    match CurrentHolidays(store)
    case Ok(h) => h
    case Err(_) => {}
  }

  /** The store after the listener has handled a change of the app language. A
      getter that meets a value of the wrong kind throws before the edit is
      committed, so nothing is written. The holiday set is read only when the
      plan has a holiday action. */
  function Cascade(store: Store): (r: Result<Store>)
    ensures r.Err? <==>
              ChosenLanguage(store).Err? ||
              (HolidayActions(PlanFor(ChosenLanguage(store).value)) > 0 && CurrentHolidays(store).Err?)
    ensures r.Ok? ==> PREF_PERSIAN_DIGITS in r.value &&
                      r.value[PREF_PERSIAN_DIGITS] == Bool(PlanFor(ChosenLanguage(store).value).persianDigits)
    ensures r.Ok? ==> r.value.Keys - CASCADE_KEYS == store.Keys - CASCADE_KEYS
    ensures r.Ok? ==> forall k :: k in store && k !in CASCADE_KEYS ==> k in r.value && r.value[k] == store[k]
  {
    match ChosenLanguage(store)
    case Err(e) => Err(e)
    case Ok(language) =>
      var plan := PlanFor(language);
      if HolidayActions(plan) == 0 then
        LanguageWritesStayInCascadeKeys(plan, {});
        Ok(store + LanguageWrites(plan, {}))
      else match CurrentHolidays(store)
        case Err(e) => Err(e)
        case Ok(current) =>
          LanguageWritesStayInCascadeKeys(plan, current);
          Ok(store + LanguageWrites(plan, current))
  }

  /** An edit block puts only the six cascade keys, and always the digit setting */
  lemma LanguageWritesStayInCascadeKeys(plan: Plan, current: set<string>)
    ensures LanguageWrites(plan, current).Keys <= CASCADE_KEYS
    ensures PREF_PERSIAN_DIGITS in LanguageWrites(plan, current)
    ensures LanguageWrites(plan, current)[PREF_PERSIAN_DIGITS] == Bool(plan.persianDigits)
  {
    assert HolidayPuts(plan, current).Keys <= {PREF_HOLIDAY_TYPES};
    assert PresetPuts(plan).Keys <= {PREF_MAIN_CALENDAR_KEY, PREF_OTHER_CALENDARS_KEY, PREF_WEEK_START, PREF_WEEK_ENDS};
  }

  /** The cascade as the edit block computes it: the holiday set is read whenever
      the plan has a holiday action, and ignored otherwise */
  lemma CascadeByPlan(store: Store)
    requires ChosenLanguage(store).Ok?
    ensures var plan := PlanFor(ChosenLanguage(store).value);
            && (Cascade(store).Ok? <==> HolidayActions(plan) == 0 || CurrentHolidays(store).Ok?)
            && (Cascade(store).Ok? ==> Cascade(store).value == store + LanguageWrites(plan, HolidaysOrEmpty(store)))
  {
    var plan := PlanFor(ChosenLanguage(store).value);
    if HolidayActions(plan) == 0 {
      assert HolidayPuts(plan, {}) == HolidayPuts(plan, HolidaysOrEmpty(store));
    }
  }

  /** The kinds the app gives the keys this model touches */
  predicate WellTyped(store: Store) {
    && (PREF_APP_LANGUAGE in store ==> store[PREF_APP_LANGUAGE].Str?)
    && (PREF_PERSIAN_DIGITS in store ==> store[PREF_PERSIAN_DIGITS].Bool?)
    && (PREF_HOLIDAY_TYPES in store ==> store[PREF_HOLIDAY_TYPES].StrSet?)
    && (PREF_MAIN_CALENDAR_KEY in store ==> store[PREF_MAIN_CALENDAR_KEY].Str?)
    && (PREF_OTHER_CALENDARS_KEY in store ==> store[PREF_OTHER_CALENDARS_KEY].Str?)
    && (PREF_WEEK_START in store ==> store[PREF_WEEK_START].Str?)
    && (PREF_WEEK_ENDS in store ==> store[PREF_WEEK_ENDS].StrSet?)
    && (CHANGE_LANGUAGE_IS_PROMOTED_ONCE in store ==> store[CHANGE_LANGUAGE_IS_PROMOTED_ONCE].Bool?)
  }

  /** On a well-typed store the cascade never throws, and it writes every key with its own kind */
  lemma CascadeKeepsKinds(store: Store)
    requires WellTyped(store)
    ensures Cascade(store).Ok? && WellTyped(Cascade(store).value)
  {
    var language := ChosenLanguage(store).value;
    var plan := PlanFor(language);
    var current := if HolidayActions(plan) == 0 then {} else CurrentHolidays(store).value;
    assert Cascade(store) == Ok(store + LanguageWrites(plan, current));
    WritesKeepKinds(plan, current);
    UnionKeepsKinds(store, LanguageWrites(plan, current));
  }

  lemma WritesKeepKinds(plan: Plan, current: set<string>)
    ensures WellTyped(LanguageWrites(plan, current))
  {
    var digits: Store := map[PREF_PERSIAN_DIGITS := Bool(plan.persianDigits)];
    var holidays := HolidayPuts(plan, current);
    var preset := PresetPuts(plan);
    assert WellTyped(digits);
    assert WellTyped(holidays);
    assert WellTyped(preset);
    UnionKeepsKinds(digits, holidays);
    UnionKeepsKinds(digits + holidays, preset);
  }

  lemma UnionKeepsKinds(a: Store, b: Store)
    requires WellTyped(a) && WellTyped(b)
    ensures WellTyped(a + b)
  {
  }

  /** Dari and Pashto switch to the Afghan holidays only when the set is empty or
      exactly the Iranian one; any other set is left as it was. */
  lemma AfghanHolidayGuard(store: Store, current: set<string>)
    requires ChosenLanguage(store) == Ok(LANG_FA_AF) || ChosenLanguage(store) == Ok(LANG_PS)
    requires CurrentHolidays(store) == Ok(current)
    ensures Cascade(store).Ok?
    ensures EmptyOrJust(current, IRAN_HOLIDAYS) ==>
              Cascade(store).value[PREF_HOLIDAY_TYPES] == StrSet({AFGHANISTAN_HOLIDAYS})
    ensures !EmptyOrJust(current, IRAN_HOLIDAYS) ==>
              (PREF_HOLIDAY_TYPES in Cascade(store).value <==> PREF_HOLIDAY_TYPES in store) &&
              (PREF_HOLIDAY_TYPES in store ==> Cascade(store).value[PREF_HOLIDAY_TYPES] == store[PREF_HOLIDAY_TYPES])
  {
  }

  /** The Iran-locale languages switch to the Iranian holidays only when the set is
      empty or exactly the Afghan one; any other set is left as it was. */
  lemma IranHolidayGuard(store: Store, current: set<string>)
    requires ChosenLanguage(store).Ok? && ChosenLanguage(store).value in {LANG_AZB, LANG_GLK, LANG_FA, LANG_EN_IR}
    requires CurrentHolidays(store) == Ok(current)
    ensures Cascade(store).Ok?
    ensures EmptyOrJust(current, AFGHANISTAN_HOLIDAYS) ==>
              Cascade(store).value[PREF_HOLIDAY_TYPES] == StrSet({IRAN_HOLIDAYS})
    ensures !EmptyOrJust(current, AFGHANISTAN_HOLIDAYS) ==>
              (PREF_HOLIDAY_TYPES in Cascade(store).value <==> PREF_HOLIDAY_TYPES in store) &&
              (PREF_HOLIDAY_TYPES in store ==> Cascade(store).value[PREF_HOLIDAY_TYPES] == store[PREF_HOLIDAY_TYPES])
  {
  }

  /** English (US) and Japanese empty the holiday set only when it is empty or
      exactly the Iranian one; any other set the user chose survives. */
  lemma RemoveEventsGuard(store: Store, current: set<string>)
    requires ChosenLanguage(store) == Ok(LANG_EN_US) || ChosenLanguage(store) == Ok(LANG_JA)
    requires CurrentHolidays(store) == Ok(current)
    ensures Cascade(store).Ok?
    ensures EmptyOrJust(current, IRAN_HOLIDAYS) ==> Cascade(store).value[PREF_HOLIDAY_TYPES] == StrSet({})
    ensures !EmptyOrJust(current, IRAN_HOLIDAYS) ==>
              (PREF_HOLIDAY_TYPES in Cascade(store).value <==> PREF_HOLIDAY_TYPES in store) &&
              (PREF_HOLIDAY_TYPES in store ==> Cascade(store).value[PREF_HOLIDAY_TYPES] == store[PREF_HOLIDAY_TYPES])
  {
  }

  /** Urdu, Arabic and every language the table does not list never touch the holiday set */
  lemma HolidaysUntouched(store: Store, language: string)
    requires ChosenLanguage(store) == Ok(language)
    requires language in {LANG_UR, LANG_AR} || language !in LISTED_LANGUAGES
    ensures Cascade(store).Ok?
    ensures PREF_HOLIDAY_TYPES in Cascade(store).value <==> PREF_HOLIDAY_TYPES in store
    ensures PREF_HOLIDAY_TYPES in store ==> Cascade(store).value[PREF_HOLIDAY_TYPES] == store[PREF_HOLIDAY_TYPES]
  {
  }

  /** An unlisted language writes only its digit setting */
  lemma UnlistedLanguageWritesDigitsOnly(store: Store, language: string)
    requires ChosenLanguage(store) == Ok(language) && language !in LISTED_LANGUAGES
    ensures Cascade(store) == Ok(store[PREF_PERSIAN_DIGITS := Bool(true)])
  {
    var plan := PlanFor(language);
    assert HolidayActions(plan) == 0;
    assert LanguageWrites(plan, {}) == map[PREF_PERSIAN_DIGITS := Bool(true)];
    assert Cascade(store) == Ok(store + map[PREF_PERSIAN_DIGITS := Bool(true)]);
    assert store + map[PREF_PERSIAN_DIGITS := Bool(true)] == store[PREF_PERSIAN_DIGITS := Bool(true)];
  }

  /** The preset a calendar flag selects is written whole, and the main calendar is
      never one of the stored other calendars. */
  lemma PresetWrittenWhole(store: Store, preset: CalendarPreset)
    requires ChosenLanguage(store).Ok?
    requires PresetFor(PlanFor(ChosenLanguage(store).value)) == Some(preset)
    requires Cascade(store).Ok?
    ensures Cascade(store).value[PREF_MAIN_CALENDAR_KEY] == Str(preset.main.Name())
    ensures Cascade(store).value[PREF_OTHER_CALENDARS_KEY] == Str(JoinNames(preset.others))
    ensures Cascade(store).value[PREF_WEEK_START] == Str(preset.weekStart)
    ensures Cascade(store).value[PREF_WEEK_ENDS] == StrSet(preset.weekEnds)
    ensures preset.main !in preset.others
  {
  }

  // ----- first start: the offer to switch the app to English -----

  /** Whether onCreate shows the offer: no language is stored and it was not offered before */
  function ShouldOfferLanguageChange(store: Store): (r: Result<bool>)
    ensures r == Ok(true) <==>
              PREF_APP_LANGUAGE !in store &&
              GetBoolean(store, CHANGE_LANGUAGE_IS_PROMOTED_ONCE, false) == Ok(false)
    ensures PREF_APP_LANGUAGE in store && store[PREF_APP_LANGUAGE].Str? ==> r == Ok(false)
    ensures r.Err? <==>
              GetString(store, PREF_APP_LANGUAGE).Err? ||
              (PREF_APP_LANGUAGE !in store && GetBoolean(store, CHANGE_LANGUAGE_IS_PROMOTED_ONCE, false).Err?)
  {
    match GetString(store, PREF_APP_LANGUAGE)
    case Err(e) => Err(e)
    case Ok(Some(_)) => Ok(false)
    case Ok(None) =>
      match GetBoolean(store, CHANGE_LANGUAGE_IS_PROMOTED_ONCE, false)
      case Err(e) => Err(e)
      case Ok(promoted) => Ok(!promoted)
  }

  /** The puts of the offer's "Settings" action */
  const LANGUAGE_OFFER_WRITES: Store :=
    map[PREF_APP_LANGUAGE := Str(LANG_EN_US),
        PREF_MAIN_CALENDAR_KEY := Str("GREGORIAN"),
        PREF_OTHER_CALENDARS_KEY := Str("ISLAMIC,SHAMSI"),
        PREF_HOLIDAY_TYPES := StrSet({})]

  function AcceptLanguageOffer(store: Store): Store {
    store + LANGUAGE_OFFER_WRITES
  }

  /** What the English (US) plan adds to the offer's puts */
  const ENGLISH_EXTRA_WRITES: Store :=
    map[PREF_PERSIAN_DIGITS := Bool(false), PREF_WEEK_START := Str("1"), PREF_WEEK_ENDS := StrSet({"1"})]

  /** Accepting the offer stores English (US), and the change of language it
      triggers agrees with what the offer already wrote: the calendars and the
      empty holiday set stay, and only the digit and week settings are added. */
  lemma LanguageOfferAgreesWithCascade(store: Store)
    ensures Cascade(AcceptLanguageOffer(store)) == Ok(AcceptLanguageOffer(store) + ENGLISH_EXTRA_WRITES)
  {
    var writes := LanguageWrites(PlanFor(LANG_EN_US), {});
    OfferReadsBack(store);
    OfferAbsorbsEnglishWrites();
    MergeAssociates(store, LANGUAGE_OFFER_WRITES, writes);
    MergeAssociates(store, LANGUAGE_OFFER_WRITES, ENGLISH_EXTRA_WRITES);
  }

  lemma MergeAssociates(a: Store, b: Store, c: Store)
    ensures (a + b) + c == a + (b + c)
  {
  }

  /** After the offer, the listener reads English (US) and an empty holiday set */
  lemma OfferReadsBack(store: Store)
    ensures Cascade(AcceptLanguageOffer(store)) ==
              Ok(AcceptLanguageOffer(store) + LanguageWrites(PlanFor(LANG_EN_US), {}))
  {
    var accepted := AcceptLanguageOffer(store);
    assert ChosenLanguage(accepted) == Ok(LANG_EN_US);
    assert CurrentHolidays(accepted) == Ok({});
  }

  /** The English (US) puts repeat the offer's calendar and holiday puts */
  lemma OfferAbsorbsEnglishWrites()
    ensures LANGUAGE_OFFER_WRITES + LanguageWrites(PlanFor(LANG_EN_US), {}) ==
            LANGUAGE_OFFER_WRITES + ENGLISH_EXTRA_WRITES
  {
    var plan := PlanFor(LANG_EN_US);
    assert HolidayRewrite(plan, {}) == Some({});
    assert PresetFor(plan) == Some(CalendarPreset(Gregorian, [Islamic, Shamsi], "1", {"1"}));
    assert JoinNames([Islamic, Shamsi]) == "ISLAMIC,SHAMSI";
    var lhs := LANGUAGE_OFFER_WRITES + LanguageWrites(plan, {});
    var rhs := LANGUAGE_OFFER_WRITES + ENGLISH_EXTRA_WRITES;
    assert lhs.Keys == rhs.Keys;
    forall k | k in lhs ensures lhs[k] == rhs[k] {
    }
  }
}
