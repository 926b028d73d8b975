# GymBro core logic in Dafny

This project models the logic under the screens of GymBro, a personal fitness-tracking app. Five pieces are modelled:

- **Local persistence layer** (`Storage`). The device key-value store holds one collection per key: exercises, workout templates, workout sessions, weight history, measurement history and current measurements. The theme preference sits under a key of its own. The model has:
  - a load for each collection, with its fallback (the 50-entry built-in exercise catalog, or the empty list);
  - the saves;
  - the read-append-write helpers for weight and sessions;
  - the two clear operations.
- **Measurements screen** (`Measurements`). It keeps an editable list of current (part, measure) pairs and a history of snapshots. The history is sorted newest first and shown in pages of 10, with a "load more" step that is guarded by the in-flight and has-more flags.
- **Weight log screen** (`WeightLog`). It covers:
  - the current weight, the previous weight and the change between them;
  - the sign and colour of the change indicator;
  - the checks on a new reading;
  - adding a reading and clearing the log.
- **Stopwatch** (`Timer`). `formatTime` turns milliseconds into `HH:MM:SS`. A start / tick / stop / reset state machine resumes from the time already shown.
- **Theme provider** (`Theme`). It covers:
  - the three preference strings;
  - the toggle cycle system → light → dark → system;
  - dark mode derived from the preference and the system colour scheme;
  - loading and storing the preference.

Records (`Types`) mirror the application's record types. Dates are millisecond timestamps, counts and durations are integers and weights are reals.

The key-value store is a map from key to a typed value (`Storage.Value`). A value of the wrong shape for its key stands for stored text that does not parse. The store's own failures are not decided by the app, so each operation gets them as flags:
- `readFails` says whether `getItem` or `JSON.parse` throws;
- `writeFails` says whether `setItem` throws.

The clock (`now`), the system colour scheme and the result of `parseFloat` are also parameters. Each React handler, timer callback and effect is one atomic step on a class whose fields are the component's state.

Measurements are modelled as **values**. In the app, `updateMeasure` changes the shared record object in place. A history snapshot copies only the array of records, so a later edit can also appear in a snapshot held in memory. This model does not share records, so that effect is not captured (see "Left out").

Three behaviours of the code worth knowing:
- `loadExercises` falls back to the built-in catalog on a read failure as well as on a missing key. The other loads fall back to `[]`.
- `clearAllData` resets the catalog to the built-in one. It does not remove the keys.
- The stopwatch resumes from the time already shown. It does not restart from zero.

The model also captures two behaviours that follow from the code:
- `saveWorkoutSession` and `addWeightEntry` treat a failed read as an empty list. They then overwrite the stored list with the one new item.
- The default weight of 80 shown on an empty log is never stored.

## Model

| member | source | states |
|---|---|---|
| Strings.Trim | components/Measurements.tsx:122 | the result is empty iff the input is all JavaScript whitespace, and it neither starts nor ends with whitespace |
| Strings.TrimKeepsMiddle | components/Measurements.tsx:122 | the trimmed text is a contiguous part of the input with only whitespace cut away on both sides |
| Strings.NatToString | components/Measurements.tsx:166 | the decimal text of a timestamp id: at least one character, all digits, no leading zero except for 0 itself, a single character exactly for values below 10 |
| Strings.IntToString | components/Timer.tsx:21-23 | integers print as their decimal digits, with a leading '-' when negative |
| Strings.DecimalValueOfNatToString | components/Measurements.tsx:166 | reading the decimal text of n back gives n |
| Strings.NatToStringInjective | components/WeightLog.tsx:70 | two timestamps with the same id text are equal |
| Strings.PadStart | components/Timer.tsx:21-23 | the result has length max(width, \|s\|), ends with s and has only pad characters in front |
| Storage.DefaultExercises | localstorage/storage.tsx:205-268 | the built-in catalog has exactly 50 entries, and entry i has id i+1 in decimal ("1" to "50") |
| Storage.DefaultExerciseIdsDistinct | localstorage/storage.tsx:205-268 | the catalog's ids are pairwise distinct |
| Storage.LoadExercises | localstorage/storage.tsx:31-50 | the result is the stored catalog or the built-in one; it is the built-in one when the key is absent or the read fails; it is the stored one when it parses |
| Storage.LoadWorkoutTemplates | localstorage/storage.tsx:63-71 | the result is the stored templates or []; it is [] on a missing key or a failed read; it never fails |
| Storage.LoadWorkoutSessions | localstorage/storage.tsx:86-94 | the result is the stored sessions or []; it is [] on a missing key or a failed read |
| Storage.LoadWeightHistory | localstorage/storage.tsx:115-123 | the result is the stored readings or []; it is [] on a missing key or a failed read |
| Storage.LoadMeasurementsHistory | localstorage/storage.tsx:144-152 | the result is the stored snapshots or []; it is [] when the stored text is missing or empty, or the read fails |
| Storage.LoadCurrentMeasurements | localstorage/storage.tsx:162-170 | the result is the stored current values or []; it is [] when the stored text is missing or empty, or the read fails |
| Storage.ClearedAll | localstorage/storage.tsx:173-187 | after the reset, templates, weight, sessions, history and current measurements load as [] and exercises load as the built-in catalog; no key outside the six collection keys changes |
| Storage.ClearingIsIdempotent | localstorage/storage.tsx:96-103 | clearing all data twice, or clearing the sessions twice, gives the same store as doing it once |
| Storage.LocalStorage.constructor | localstorage/storage.tsx:2-16 | the store starts with the given contents |
| Storage.LocalStorage.SetItem | localstorage/storage.tsx:22 | a successful write sets one key; a failed one leaves the store unchanged; no other key changes |
| Storage.LocalStorage.SaveExercises | localstorage/storage.tsx:19-28 | reports failure (throws) exactly when the write fails; otherwise it writes only the exercises key, and a load then returns the saved list |
| Storage.LocalStorage.SaveWorkoutTemplates | localstorage/storage.tsx:53-61 | writes only the templates key and swallows a failed write; a load then returns the saved list |
| Storage.LocalStorage.SaveWorkoutSession | localstorage/storage.tsx:74-84 | writes the loaded sessions plus the new one at the end, under the sessions key only; with a successful read and write, sessions = old sessions + [session] |
| Storage.LocalStorage.ClearWorkoutSessions | localstorage/storage.tsx:96-103 | stores an empty session list under its key only; a load then returns [] |
| Storage.LocalStorage.SaveWeightHistory | localstorage/storage.tsx:106-113 | writes only the weight key and swallows a failed write; a load then returns the saved list |
| Storage.LocalStorage.AddWeightEntry | localstorage/storage.tsx:125-133 | writes the loaded history plus the new reading at the end, under the weight key only; with a successful read and write, history = old history + [entry] |
| Storage.LocalStorage.SaveMeasurementsHistory | localstorage/storage.tsx:136-142 | writes only the history key and swallows a failed write; a load then returns the saved list |
| Storage.LocalStorage.SaveCurrentMeasurements | localstorage/storage.tsx:154-160 | writes only the current-measurements key and swallows a failed write; a load then returns the saved list |
| Storage.LocalStorage.ClearAllData | localstorage/storage.tsx:173-187 | one multi-key write: the store becomes the reset store, or stays unchanged if the write fails; only the six collection keys can change |
| Measurements.InsertNewestFirst | components/Measurements.tsx:61 | inserting into a newest-first list keeps it newest first and adds exactly the one entry |
| Measurements.SortNewestFirst | components/Measurements.tsx:61 | the result is ordered newest date first and is a permutation of the input |
| Measurements.Slice | components/Measurements.tsx:84 | an in-range slice is the subsequence from start to min(end, length); a slice starting at or past the end is empty |
| Measurements.FirstPage | components/Measurements.tsx:65 | the first page is the first min(10, n) entries |
| Measurements.FirstPageShown | components/Measurements.tsx:65-68 | showing the first page of any history, with has-more iff it holds more than 10 entries, satisfies the pagination invariant |
| Measurements.Without | components/Measurements.tsx:150 | dropping an existing index shortens the list by one, dropping a missing index keeps its length (which entries remain is stated by WithoutRemovesOne) |
| Measurements.WithoutRemovesOne | components/Measurements.tsx:150 | filtering out an existing index removes exactly that entry and keeps the others in order; filtering out a missing index changes nothing |
| Measurements.WithoutExisting | components/Measurements.tsx:150 | filtering out an existing index gives the entries before it followed by the entries after it |
| Measurements.WithoutMissing | components/Measurements.tsx:150 | filtering out an index with no entry keeps the list as it is |
| Measurements.ValidateMeasurement | components/Measurements.tsx:121-128 | a pair is rejected iff either field is all whitespace; an accepted pair is the trimmed pair |
| Measurements.MeasurementsScreen.constructor | components/Measurements.tsx:24-41 | the default measures are Height 180, Bicep 30 and Waist 70; the history is empty; page 0; has-more on; nothing in flight |
| Measurements.MeasurementsScreen.LoadData | components/Measurements.tsx:49-75 | stored current measurements replace the defaults unless there are none; the history is a newest-first permutation of the stored history; the display is its first min(10, n) entries; page 1; has-more iff n > 10 |
| Measurements.MeasurementsScreen.OnRefresh | components/Measurements.tsx:97-107 | the same result as a fresh load |
| Measurements.MeasurementsScreen.LoadMoreData | components/Measurements.tsx:77-80 | does nothing while a page is in flight or when nothing is left; otherwise marks a page in flight |
| Measurements.MeasurementsScreen.FinishLoadMore | components/Measurements.tsx:81-94 | appends history[page·10 .. page·10+10), increments the page and sets has-more iff the end is before n; with nothing left it only clears has-more; the display stays the prefix of length min(page·10, n); it runs only while a page is in flight, as the timer `loadMoreData` starts |
| Measurements.MeasurementsScreen.SetNewPart | components/Measurements.tsx:291 | the body-part field takes the typed text |
| Measurements.MeasurementsScreen.SetNewMeasure | components/Measurements.tsx:300 | the value field takes the typed text |
| Measurements.MeasurementsScreen.UpdateMeasure | components/Measurements.tsx:109-119 | only entry i's value changes, the length stays and the list is saved; an index with no entry changes nothing |
| Measurements.MeasurementsScreen.AddMeasurement | components/Measurements.tsx:121-137 | a blank field changes nothing; otherwise the trimmed pair is appended at the end, saved and the form cleared |
| Measurements.MeasurementsScreen.DeleteMeasurement | components/Measurements.tsx:139-161 | removes exactly entry i, keeps the others in order and saves; an index with no entry changes nothing |
| Measurements.MeasurementsScreen.SaveMeasurementsToHistory | components/Measurements.tsx:163-188 | puts exactly one snapshot of the current measures in front of the history and saves it; the display is back on page 1 with has-more iff the length is above 10 |
| Measurements.MeasurementsScreen.ClearHistory | components/Measurements.tsx:260-271 | the history and display are empty, page 0, has-more off; an empty history is saved |
| Measurements.PaginationOfTwentyFive | components/Measurements.tsx:64-92 | with 25 stored snapshots the display shows 10, then 20, then all 25 with has-more off; a third load-more shows nothing new |
| WeightLog.CurrentWeight | components/WeightLog.tsx:42 | the weight of the last entry in insertion order, or 0 for an empty list |
| WeightLog.PreviousWeight | components/WeightLog.tsx:43 | the second-to-last weight when there are at least 2 entries, absent otherwise |
| WeightLog.WeightChange | components/WeightLog.tsx:44 | present iff a previous weight exists and is non-zero; then previous + change = current |
| WeightLog.AppendShiftsReadings | components/WeightLog.tsx:42-43 | after a reading is appended it is the current weight, and the former current weight becomes the previous one |
| WeightLog.GetChangeText | components/WeightLog.tsx:121-125 | no text iff the change is absent or zero; otherwise it shows the change, with "+" exactly for a gain and no sign of its own for a loss |
| WeightLog.GetChangeColor | components/WeightLog.tsx:127-130 | grey iff the change is absent or zero, red iff it is positive, green iff it is negative |
| WeightLog.ColourMatchesText | components/WeightLog.tsx:121-130 | red exactly when "+" is shown, green exactly when a loss is shown, grey exactly when there is no text |
| WeightLog.ChangeOfEightyToEightyTwoAndAHalf | components/WeightLog.tsx:121-124 | readings 80 then 82.5 give a change of +2.5, shown as "+" 2.5 in red |
| WeightLog.ValidateWeight | components/WeightLog.tsx:52-66 | accepted iff the input is not blank, parses as a number and is above 0; the three rejections come in the source's order, each under its exact condition |
| WeightLog.Reversed | components/WeightLog.tsx:214-215 | the displayed list has as many entries as the log |
| WeightLog.ReversedAt | components/WeightLog.tsx:214-215 | display position k shows the k-th reading from the end, so the top of the list is the current weight |
| WeightLog.WeightLogScreen.constructor | components/WeightLog.tsx:11-13 | the screen starts with no entries, an empty input and the dialog closed |
| WeightLog.WeightLogScreen.LoadData | components/WeightLog.tsx:17-40 | the local list is the stored history, or a single default reading of 80 when none is stored |
| WeightLog.WeightLogScreen.SetInputValue | components/WeightLog.tsx:183 | the input field takes the typed text |
| WeightLog.WeightLogScreen.HandleSaveWeight | components/WeightLog.tsx:51-88 | a rejected input changes nothing; an accepted one appends exactly one entry at the end of the local list, becomes the current weight and closes the dialog; when the write succeeds, the weight key holds the loaded history plus that entry at the end, so with a successful read the stored history gains exactly that entry (a failed read stores only the new entry, a failed write leaves the store unchanged) |
| WeightLog.WeightLogScreen.ClearAllWeights | components/WeightLog.tsx:90-111 | the local list is empty afterwards; when the write succeeds the stored history is empty too, and a failed write leaves the store unchanged |
| Timer.JsRem | components/Timer.tsx:17-18 | JavaScript's remainder: the Euclidean one for a non-negative dividend, for a negative one a + b·trunc(-a/b) = a − b·trunc(a/b), which lies in (-b, 0] |
| Timer.TimeFields | components/Timer.tsx:15-18 | for a non-negative time, minutes and seconds lie in 0..59 and hours·3600 + minutes·60 + seconds = ⌊ms/1000⌋ |
| Timer.Field | components/Timer.tsx:21-23 | every field is at least two characters long |
| Timer.FormatTime | components/Timer.tsx:14-25 | the text is at least 8 characters long |
| Timer.TwoDigitField | components/Timer.tsx:21-23 | a field below 100 prints as two digits that read back as its value |
| Timer.JoinedFields | components/Timer.tsx:20-24 | joining three two-digit fields with ':' puts the separators at positions 2 and 5 and each field's digits and value in its place |
| Timer.FormatTimeReadsBack | components/Timer.tsx:14-25 | below 100 hours the text is HH:MM:SS with minutes and seconds below 60, and its three fields read back as the whole seconds elapsed |
| Timer.SixtyFiveSeconds | components/Timer.tsx:14-25 | 65000 ms prints as "00:01:05" |
| Timer.MinusOneSecond | components/Timer.tsx:15-18 | a negative time prints the JavaScript way: -1000 ms gives "-1:-1:-1" |
| Timer.Stopwatch.constructor | components/Timer.tsx:7-10 | the stopwatch starts stopped at 0, with no start time and no final time |
| Timer.Stopwatch.HandleStart | components/Timer.tsx:44-48 | start = now − current, so the count resumes; running; final time cleared |
| Timer.Stopwatch.Tick | components/Timer.tsx:27-33 | keeps the invariant that a running stopwatch has a start time; only while running, the current time becomes now − start; otherwise nothing changes |
| Timer.Stopwatch.HandleStop | components/Timer.tsx:50-53 | stops and sets the final time to the current time |
| Timer.Stopwatch.HandleReset | components/Timer.tsx:55-59 | from any state: stopped, current time 0, no final time |
| Timer.StopAndResume | components/Timer.tsx:28-53 | start, tick, stop, start and tick again: the time shown is the sum of the two running spans |
| Theme.IsValidThemePreference | theme/ThemeContext.tsx:73-75 | a string is a valid preference iff it is the name of one of the three preferences |
| Theme.ParsePreference | theme/ThemeContext.tsx:73-75 | a string names a preference iff it is "light", "dark" or "system", and it names the one whose name it is |
| Theme.ParsePreferenceName | theme/ThemeContext.tsx:73-75 | every preference's name is valid and reads back as that preference |
| Theme.NextPreference | theme/ThemeContext.tsx:83-90 | a toggle without an argument always changes the preference, going system → light and light → dark (and so, with three toggles returning, dark → system) |
| Theme.ThreeTogglesReturn | theme/ThemeContext.tsx:83-90 | three toggles return to the start, and the cycle passes through all three preferences |
| Theme.DarkModeFor | theme/ThemeContext.tsx:95-99 | for light or dark, dark mode iff the preference is dark; for system, dark mode iff the system scheme is dark |
| Theme.StoredPreference | theme/ThemeContext.tsx:61-62 | a stored preference is found only if the read succeeds and the stored text is its name; a stored valid name is always found |
| Theme.ThemeProvider.constructor | theme/ThemeContext.tsx:45-47 | the preference starts as system, with dark mode iff the system scheme is dark |
| Theme.ThemeProvider.ActiveTheme | theme/ThemeContext.tsx:108 | the palette is the dark theme iff dark mode is on |
| Theme.ThemeProvider.LoadThemePreference | theme/ThemeContext.tsx:59-71 | an absent or invalid stored value changes nothing; a stored light or dark sets the preference and dark mode; a stored system sets only the preference |
| Theme.ThemeProvider.ToggleTheme | theme/ThemeContext.tsx:77-106 | adopts the explicit choice or the next one in the cycle; dark mode then agrees with the preference and scheme; the name is written under `themePreference` only and loads back |
| Theme.ThemeProvider.SystemSchemeEffect | theme/ThemeContext.tsx:53-57 | while the preference is system, dark mode follows the new scheme; otherwise it is kept |
| Theme.PreferenceSurvivesRestart | theme/ThemeContext.tsx:59-106 | a preference chosen and stored is the one a fresh provider loads, with the matching dark mode |

## Left out

- Rendering is not modelled: JSX, styles, lists, modals, refresh controls, spinner flags (`loading`, `refreshing`) and `formatDate`. An error alert is modelled as "the handler changes nothing". A confirmation dialog is modelled as its confirmed path only.
- JSON encoding and decoding are abstracted away. Any stored value whose shape does not match its key counts as text that `JSON.parse` rejects. In the app, valid JSON of the wrong shape would be returned as is.
- `AsyncStorage.multiSet` in `clearAllData` is taken as all-or-nothing. A partial write by the native store is not modelled.
- `getStorageInfo` and all console logging are debug I/O and are left out.
- The 500 ms delay before the load-more callback is left out. The callback reads the screen's fields when it runs, not the values its closure captured when it was scheduled.
- Measurement records are values. The in-place edit in `updateMeasure`, and the way it can show through a snapshot's shared records, are not captured.
- SortNewestFirst: stable like `Array.prototype.sort`, but only ordering and permutation are proved, not stability. Dates are integers, so an invalid date (a NaN comparison) cannot occur.
- `Date.now()`, ISO date strings, id generation, `useColorScheme()` and `parseFloat` are inputs. Number formatting (`toFixed`, `toString` of non-integers) is not modelled, and neither is `handlePress`, which formats the current weight into the input field.
- React effects are explicit steps. `SystemSchemeEffect` is the effect that the app runs after the scheme or the preference changes.
- `setInterval` and its cleanup are not modelled as timing. A firing of the interval is a `Tick`, which acts only while running.
- FormatTimeReadsBack: the HH:MM:SS read-back is stated below 100 hours only. Above that the hours field has more than two digits, and only the bounds of TimeFields and the minimum length are stated.
- The other screens (session logging, templates, history, settings) and components/ui/fab.tsx, app/_layout.tsx and components/ThemedStatusBar.tsx are not part of this model. They are callers or pure UI wiring.
