# Persian Calendar: language cascade, drawer navigation and widget colour picker

This project models in Dafny the parts of the Persian Calendar Android app that carry their own logic. Everything else in those files is user-interface wiring.

- **MainActivity** (`MainActivity.kt`):
  - When the app language changes, the preference listener picks a plan from a fixed table of languages. The plan covers digits, main calendar, holiday set and week settings.
  - The listener then makes guarded writes to the key/value preference store in one `edit { }` block.
  - On first start the activity offers once to switch the app to English.
  - The launch intent's action decides the first destination.
  - The drawer header shows a season picture chosen from the Shamsi month and the hemisphere.
  - The drawer callbacks drive a small state machine over `settingHasChanged` and `clickedItem`.
- **ColorPickerDialog** (`ColorPickerDialog.kt`):
  - The dialog starts from the stored colour or from a default.
  - It offers a fixed palette.
  - It stores the picked colour as `#` followed by 8 upper-case hex digits for a background, or 6 for text.

Modules:

- `preferences.dfy` (`Preferences`): the store as a `map<string, PrefValue>`, with `PrefValue = Str | Bool | StrSet`.
  - Android's typed getters are modelled with the exception they throw when the stored value has another kind. That exception becomes a `Result`.
  - A `SharedPreferences` class commits an editor's pending puts all at once.
- `language_cascade.dfy` (`LanguageCascade`): the language table (`PlanFor`), the holiday and calendar rewrites, and the whole effect of a language change on the store (`Cascade`), with lemmas about them. It also holds the first-start language offer.
- `main_activity.dfy` (`MainActivity`): intent routing, the season index and the `Activity` class.
  - The class's methods update `settingHasChanged`, `clickedItem`, the checked menu entry, the list of navigations, restarts and the store.
  - `ApplyLanguageChange` runs the edit block step by step. It is proved equal to `Cascade`.
- `color_picker.dfy` (`ColorPicker`): the initial colour, the palettes, `%0<w>X` formatting with its parser and round trip, and the write-back.

Constants:

- The `LANG_*`, `PREF_*`, `DEFAULT_*` and `R.id.*` constants are defined in files that are not part of this model.
- The model gives them placeholder values. No proof relies on those values except that they are pairwise distinct and that ids are non-zero.

Side effects:

- The navigation controller, `finish()`/`startActivity` and the refresh done by `initUtils`/`update` are recorded as abstract events.
- The recorded events are the `navigations` sequence, `restarts`, `finished` and the `refreshes` counter.

## Model

| member | source | states |
|---|---|---|
| `Preferences.GetString` | PersianCalendar/src/main/java/com/byagowi/persiancalendar/ui/MainActivity.kt:249 | `getString(key, null)`: null exactly when the key is absent; the stored string when it holds one; a class-cast error when it holds another kind |
| `Preferences.GetStringSet` | PersianCalendar/src/main/java/com/byagowi/persiancalendar/ui/MainActivity.kt:294-295 | `getStringSet(key, null)`: null exactly when absent; the stored set; an error for another kind |
| `Preferences.GetBoolean` | PersianCalendar/src/main/java/com/byagowi/persiancalendar/ui/MainActivity.kt:169 | `getBoolean(key, default)`: the stored boolean, or the default when absent; an error for another kind |
| `Preferences.SharedPreferences.Commit` | PersianCalendar/src/main/java/com/byagowi/persiancalendar/ui/MainActivity.kt:290-338 | committing an editor adds the pending keys, the pending value wins on each of them, and every other key keeps its value |
| `LanguageCascade.PlanFor` | PersianCalendar/src/main/java/com/byagowi/persiancalendar/ui/MainActivity.kt:249-288 | each flag holds exactly for the languages the table lists for it (both directions); digits are Latin exactly for en-US, en-IR and ur; at most one holiday action and at most one calendar change per language; an unlisted language sets only persianDigits |
| `LanguageCascade.PresetFor` | PersianCalendar/src/main/java/com/byagowi/persiancalendar/ui/MainActivity.kt:318-337 | a preset is chosen exactly when some calendar flag is set, with priority Gregorian > Islamic > Persian; its two other calendars never include the main one, together with it name each calendar once, and are listed in the order Gregorian, Islamic, Shamsi; the Gregorian preset starts the week on "1" with week ends {"1"}, the other two use the default week start and week ends |
| `LanguageCascade.Cascade` | PersianCalendar/src/main/java/com/byagowi/persiancalendar/ui/MainActivity.kt:241-338 | the change fails (nothing written) exactly when the language read, or a needed holiday read, meets a value of another kind; on success the digit setting is always written with the plan's value, and every key outside the six cascade keys is unchanged |
| `LanguageCascade.ChosenLanguage` | PersianCalendar/src/main/java/com/byagowi/persiancalendar/ui/MainActivity.kt:249 | the stored language when the key holds a string, the default when it is absent, and an error when it holds another kind |
| `LanguageCascade.HolidayRewrite` | PersianCalendar/src/main/java/com/byagowi/persiancalendar/ui/MainActivity.kt:293-317 | a holiday put happens only for a plan with a holiday action and a current set of at most one entry; it writes {}, {"iran_holidays"} or {"afghanistan_holidays"}, each only under its own flag and guard |
| `LanguageCascade.CascadeKeepsKinds` | PersianCalendar/src/main/java/com/byagowi/persiancalendar/ui/MainActivity.kt:290-338 | on a store whose keys hold their usual kinds the cascade never throws and keeps every key's kind |
| `LanguageCascade.AfghanHolidayGuard` | PersianCalendar/src/main/java/com/byagowi/persiancalendar/ui/MainActivity.kt:293-301 | Dari and Pashto set {"afghanistan_holidays"} when the set is empty or exactly {"iran_holidays"}, and otherwise leave it as it was |
| `LanguageCascade.IranHolidayGuard` | PersianCalendar/src/main/java/com/byagowi/persiancalendar/ui/MainActivity.kt:302-309 | the Iran-locale languages set {"iran_holidays"} when the set is empty or exactly {"afghanistan_holidays"}, and otherwise leave it as it was |
| `LanguageCascade.RemoveEventsGuard` | PersianCalendar/src/main/java/com/byagowi/persiancalendar/ui/MainActivity.kt:310-317 | en-US and ja empty the set when it is empty or exactly {"iran_holidays"}, and otherwise leave the holiday key as it was |
| `LanguageCascade.HolidaysUntouched` | PersianCalendar/src/main/java/com/byagowi/persiancalendar/ui/MainActivity.kt:269-317 | Urdu, Arabic and unlisted languages never touch the holiday set, and the cascade cannot fail on it |
| `LanguageCascade.UnlistedLanguageWritesDigitsOnly` | PersianCalendar/src/main/java/com/byagowi/persiancalendar/ui/MainActivity.kt:287-291 | an unlisted language writes persianDigits = true and nothing else |
| `LanguageCascade.PresetWrittenWhole` | PersianCalendar/src/main/java/com/byagowi/persiancalendar/ui/MainActivity.kt:318-337 | the chosen preset writes main calendar, other calendars, week start and week ends together, and the main calendar is not among the others |
| `LanguageCascade.ShouldOfferLanguageChange` | PersianCalendar/src/main/java/com/byagowi/persiancalendar/ui/MainActivity.kt:168-170 | the English offer is shown exactly when no language is stored and the offer was not made before; a stored language suppresses it; it fails exactly when a read meets a value of another kind, that is when the language key holds a non-string or, with no language stored, the offer flag holds a non-boolean |
| `LanguageCascade.LanguageOfferAgreesWithCascade` | PersianCalendar/src/main/java/com/byagowi/persiancalendar/ui/MainActivity.kt:176-182 | after the offer is accepted, the language change it triggers keeps the calendars and the empty holiday set the offer wrote, and only adds the digit and week settings |
| `MainActivity.LaunchDestination` | PersianCalendar/src/main/java/com/byagowi/persiancalendar/ui/MainActivity.kt:128-136 | each of COMPASS, LEVEL, CONVERTER, SETTINGS and DEVICE opens its destination and only it does; every other action, and a null action, opens the calendar |
| `MainActivity.SeasonIndex` | PersianCalendar/src/main/java/com/byagowi/persiancalendar/ui/MainActivity.kt:155-158 | for a month in 1..12 the index is in 0..3 and names the quarter of the Shamsi year holding the month; south of the equator it names the quarter two seasons away; a missing coordinate counts as northern |
| `MainActivity.SeasonImageFor` | PersianCalendar/src/main/java/com/byagowi/persiancalendar/ui/MainActivity.kt:160-165 | index 0, 1 and 2 show spring, summer and fall; every other index shows winter |
| `MainActivity.SouthernSeasonIsOpposite` | PersianCalendar/src/main/java/com/byagowi/persiancalendar/ui/MainActivity.kt:157-165 | a negative latitude shows the picture of the opposite season to the northern one |
| `MainActivity.Activity.constructor` | PersianCalendar/src/main/java/com/byagowi/persiancalendar/ui/MainActivity.kt:49-56 | the activity starts with settingHasChanged false and clickedItem 0, and nothing navigated, refreshed or restarted |
| `MainActivity.Activity.NavigateTo` | PersianCalendar/src/main/java/com/byagowi/persiancalendar/ui/MainActivity.kt:221-237 | navigates to the id; checks its menu entry (the compass entry for the level) when the menu has one; refreshes exactly once if settings had changed; settingHasChanged is false afterwards |
| `MainActivity.MenuEntryFor` | PersianCalendar/src/main/java/com/byagowi/persiancalendar/ui/MainActivity.kt:222-224 | the entry checked for a destination is the destination itself, except that the level checks the compass entry; no destination checks the level |
| `MainActivity.Activity.RouteLaunchIntent` | PersianCalendar/src/main/java/com/byagowi/persiancalendar/ui/MainActivity.kt:126-141 | navigates to the launch action's destination as NavigateTo does (menu entry checked, one refresh after a settings change, settingHasChanged cleared), then clears the action to "" so that routing it again opens the calendar |
| `MainActivity.Activity.OfferLanguageChange` | PersianCalendar/src/main/java/com/byagowi/persiancalendar/ui/MainActivity.kt:168-189 | when the offer is shown it is marked as made in the store, and nothing else is written |
| `MainActivity.Activity.AcceptOffer` | PersianCalendar/src/main/java/com/byagowi/persiancalendar/ui/MainActivity.kt:176-183 | the offer's action stores en-US, Gregorian with Islamic and Shamsi, and an empty holiday set |
| `MainActivity.Activity.RestartToSettings` | PersianCalendar/src/main/java/com/byagowi/persiancalendar/ui/MainActivity.kt:416-421 | the activity finishes and restarts with its intent's action set to "SETTINGS", which routes to the settings |
| `MainActivity.Activity.ApplyLanguageChange` | PersianCalendar/src/main/java/com/byagowi/persiancalendar/ui/MainActivity.kt:290-338 | the step-by-step edit block commits exactly the store `Cascade` describes, and commits nothing when a getter throws |
| `MainActivity.Activity.OnSharedPreferenceChanged` | PersianCalendar/src/main/java/com/byagowi/persiancalendar/ui/MainActivity.kt:239-348 | any change sets settingHasChanged; only a language change writes to the store; a language or theme change finishes and restarts into the settings unless a read in the cascade threw; without a restart the intent and the finished flag are unchanged |
| `MainActivity.Activity.OnNavigationItemSelected` | PersianCalendar/src/main/java/com/byagowi/persiancalendar/ui/MainActivity.kt:423-433 | exit finishes and never sets clickedItem; any other entry closes the drawer and is stored in clickedItem; the selection is always reported handled |
| `MainActivity.Activity.OnDrawerClosed` | PersianCalendar/src/main/java/com/byagowi/persiancalendar/ui/MainActivity.kt:114-120 | navigates to clickedItem as NavigateTo does (menu entry checked, one refresh after a settings change) only when it is not 0, then resets it to 0; with clickedItem 0 nothing changes; exit is never navigated to |
| `MainActivity.Activity.OnBackPressed` | PersianCalendar/src/main/java/com/byagowi/persiancalendar/ui/MainActivity.kt:440-453 | closes an open drawer; else does nothing if a search was closed; else finishes on the calendar and navigates to the calendar from anywhere else; without a navigation settingHasChanged, refreshes and the checked entry are unchanged; a navigation checks the calendar entry, refreshes once after a settings change and clears settingHasChanged |
| `MainActivity.EditHolidays` | PersianCalendar/src/main/java/com/byagowi/persiancalendar/ui/MainActivity.kt:293-317 | the three guarded holiday puts, each reading the committed store, add exactly the put `HolidayPuts` gives, and fail exactly when a needed read throws |
| `MainActivity.EditPreset` | PersianCalendar/src/main/java/com/byagowi/persiancalendar/ui/MainActivity.kt:318-337 | the `when` over the calendar flags adds exactly the preset's four puts |
| `MainActivity.SingletonByCount` | PersianCalendar/src/main/java/com/byagowi/persiancalendar/ui/MainActivity.kt:297-298 | `size == 1 && contains(x)` holds exactly for the set {x}, and `isEmpty()` exactly for {} |
| `ColorPicker.InitialColor` | PersianCalendar/src/main/kotlin/com/byagowi/persiancalendar/ui/preferences/shared/ColorPickerDialog.kt:16-17 | the stored string when the key holds one; otherwise the background or text default as `isBackgroundPick` says; an error when the key holds another kind |
| `ColorPicker.Palette` | PersianCalendar/src/main/kotlin/com/byagowi/persiancalendar/ui/preferences/shared/ColorPickerDialog.kt:28-29 | 4 distinct background colours with zero red, green and blue, so they differ only in alpha; 5 distinct text colours, all with alpha 0xFF; all are 32-bit values |
| `ColorPicker.ParseFixedHex` | PersianCalendar/src/main/kotlin/com/byagowi/persiancalendar/ui/preferences/shared/ColorPickerDialog.kt:40-44 | parsing the n hex digits printed for a value below 16^n gives the value back |
| `ColorPicker.FormatHex` | PersianCalendar/src/main/kotlin/com/byagowi/persiancalendar/ui/preferences/shared/ColorPickerDialog.kt:40-43 | `%0<w>X` prints exactly max(w, the value's digit count) upper-case hex digits, and they parse back to the value |
| `ColorPicker.FormatHexFits` | PersianCalendar/src/main/kotlin/com/byagowi/persiancalendar/ui/preferences/shared/ColorPickerDialog.kt:40-43 | `%0<w>X` of a value below 16^w prints exactly w digits, which parse back to the value |
| `ColorPicker.Unsigned32` | PersianCalendar/src/main/kotlin/com/byagowi/persiancalendar/ui/preferences/shared/ColorPickerDialog.kt:41 | `0xFFFFFFFF and color.toLong()` is the colour itself when non-negative and the colour plus 2^32 when negative |
| `ColorPicker.Rgb` | PersianCalendar/src/main/kotlin/com/byagowi/persiancalendar/ui/preferences/shared/ColorPickerDialog.kt:43 | `0xFFFFFF and color` is the low 24 bits of the unsigned colour |
| `ColorPicker.ColorResult` | PersianCalendar/src/main/kotlin/com/byagowi/persiancalendar/ui/preferences/shared/ColorPickerDialog.kt:39-45 | the stored string is '#' followed by 8 characters for a background and 6 for text |
| `ColorPicker.BackgroundResultFormat` | PersianCalendar/src/main/kotlin/com/byagowi/persiancalendar/ui/preferences/shared/ColorPickerDialog.kt:40-41 | a background result is '#' and exactly 8 upper-case hex digits that parse back to the colour's 32 bits |
| `ColorPicker.TextResultFormat` | PersianCalendar/src/main/kotlin/com/byagowi/persiancalendar/ui/preferences/shared/ColorPickerDialog.kt:42-43 | a text result is '#' and exactly 6 upper-case hex digits that parse back to the colour's low 24 bits |
| `ColorPicker.TextResultIgnoresAlpha` | PersianCalendar/src/main/kotlin/com/byagowi/persiancalendar/ui/preferences/shared/ColorPickerDialog.kt:42-44 | two text colours give the same string exactly when their red, green and blue agree |
| `ColorPicker.BackgroundResultIsInjective` | PersianCalendar/src/main/kotlin/com/byagowi/persiancalendar/ui/preferences/shared/ColorPickerDialog.kt:40-41 | two background colours give the same string exactly when they are the same colour |
| `ColorPicker.StoreAfterDialog` | PersianCalendar/src/main/kotlin/com/byagowi/persiancalendar/ui/preferences/shared/ColorPickerDialog.kt:38-47 | accepting writes exactly one preference, the result under the same key, and leaves all other keys alone; cancelling writes nothing |
| `ColorPicker.ShowColorPickerDialog` | PersianCalendar/src/main/kotlin/com/byagowi/persiancalendar/ui/preferences/shared/ColorPickerDialog.kt:15-21 | reads the initial colour; if that read throws, nothing is written; otherwise the store becomes the one `StoreAfterDialog` describes for the user's choice |

## Left out

- MoonView.kt is not part of this model. It is a floating-point animation plus canvas drawing over a foreign astronomical computation.
- settings.gradle.kts is not part of this model. It is build configuration and has no behaviour.
- Left out from MainActivity.kt as platform I/O or foreign calls:
  - theme and font setup, window flags and the status bar;
  - Snackbar display itself (only its preference writes are modelled);
  - the outdated-app Snackbar and the Play Store link;
  - permission checks and requests, and `onRequestPermissionsResult`;
  - services and workers, `onResume`'s day-change restart and `onConfigurationChanged`;
  - `onKeyDown`, Dagger injection, the ViewModel notification, and the debug log call in `onNavigationItemSelected`.
- `update`, `initUtils` and `updateStoredPreference` are foreign. navigateTo's refresh is recorded only as the `refreshes` counter.
- The drawer slide animation (MainActivity.kt:102-112) is float arithmetic on a view's translation. It is left out.
- MainActivity.Activity.OnSharedPreferenceChanged: does not model the device-calendar permission request (lines 341-346) or the notification-service restart (lines 350-355). Both are permission and service calls.
- The store does not call the listener back when a commit changes a key. The model's callers invoke `OnSharedPreferenceChanged` themselves. `LanguageOfferAgreesWithCascade` states what that call writes after the offer is accepted, by applying `Cascade` to the accepted offer's store.
- The listener's `sharedPreferences` argument is taken to be the app's store, never null.
- The launch intent is taken to be present. Android always supplies one to a launched activity, so the `intent != null` guard is not modelled.
- A latitude that is NaN compares as not negative and so counts as northern. Latitudes are modelled as reals, which have no NaN.
- `Color.parseColor`, `ColorPickerView` and `AlertDialog` are foreign UI and library calls:
  - the picked colour is an input, `None` for cancel;
  - a malformed stored colour string, which `parseColor` would reject, is not modelled;
  - the dialog title and padding are not modelled.
