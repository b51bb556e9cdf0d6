# FD-GUI filament dryer: a Dafny model of its control and preset logic

FD-GUI is a PyQt touch-screen front end for a filament dryer. Most of it is
widget code. This project models the logic inside four of its pages and proves
properties of that logic:

- **Main page** (`src/main_page.py`, module `Dryer`, file `dryer.dfy`). The
  drying session is a small state machine over `timer_running`, `heater_on`,
  `pwm_value` and `remaining_time`. Selecting a preset arms the countdown.
  The one-second countdown tick stops the dryer when the remaining time
  reaches zero. The page also keeps three environment histories capped at 60
  samples, and splits the remaining seconds into minutes and seconds with
  `divmod`. The page is the class `Dryer.MainPage`. The transitions are also
  given as functions on a `Session` value, so lemmas can reason about any
  number of ticks.
- **Test mode** (`src/testing_page.py`, module `TestMode`, file
  `testmode.dfy`). A simulated temperature drifts toward the target and is
  clamped to [20, 100] °C. A threshold law turns `error = target − current`
  into a PWM percentage. Three `deque(maxlen=120)` histories record each
  update. The page is the class `TestMode.TestingPage`.
- **Settings page** (`src/settings_page.py`, module `Settings`, file
  `settings.dfy`). The preset table maps a name to
  `{temperature, drying_time}`. It covers:
  - the add, edit, delete and slider dialogs;
  - the legacy `add_preset` form;
  - the migration of legacy `"N°C"` entries when the file is loaded;
  - the validation that guards `save_presets`;
  - the placement of presets on a sorted grid, two presets per row.

  The page is the class `Settings.SettingsPage`.
- **Preset selection page** (`src/preset_selection_page.py`, module
  `PresetSelection`, file `presetselection.dfy`). This is the older page, which
  stores presets as `"N°C"` strings. It covers its defaults, its three-column
  button grid, the sliders of its edit dialog, and the save that writes them
  back. The page is the class `PresetSelection.PresetSelectionPage`.

Shared modules:

- `Results` (`results.dfy`): `Option` and `Result`.
- `Decimal` (`decimal.dfy`): Python's `str(n)`, `int(s)`, `str.strip()`,
  `s.replace('°C', '')`, and the `"N°C"` legacy format.
- `Rolling` (`rolling.dfy`): bounded histories. `Push` appends and drops the
  oldest entry past the capacity. `LastN` is the window it keeps.
- `Store` (`store.dfy`): decoded JSON values, and the three outcomes of
  reading `presets.json`.

How the model treats things outside the program logic:

- **Preset file.** The file is an abstract value: `Missing`, `Undecodable`, or
  `Decoded(value)`. Each page's `file` field holds the content it last read or
  wrote.
- **Randomness, clock readings and slider positions.** These become parameters
  of the methods that use them. Each random draw is bounded by its
  `random.uniform` range, and each slider position by the slider's range.
- **Timers and signals.** A timer firing is an explicit method call.
- **Exceptions.** An operation that raises on some inputs returns an
  `Option`, a `Result` or an `Outcome` naming the error.

The program has no "Finished" session state. When the countdown reaches zero,
`update_countdown` calls `stop_dryer`, and the session is simply stopped with
`remaining_time == 0`. The model follows the code.

## Model

| member | source | states |
|---|---|---|
| Dryer.MainPage.constructor | src/main_page.py:59-84 | The page starts with the four built-in presets and PLA selected. The target is 66 °C, the preset time 60 min and the remaining time 3600 s. The dryer is stopped and the histories are empty. |
| Dryer.MainPage.StartDryer | src/main_page.py:44-49 | The heater is on at PWM 255 and the countdown is running. The remaining time is untouched. |
| Dryer.MainPage.StopDryer | src/main_page.py:51-56 | The heater is off, PWM is 0 and the countdown is stopped. The remaining time is untouched. |
| Dryer.MainPage.UpdateCountdown | src/main_page.py:225-230 | The session becomes `Ticked` of the old session. A non-negative remaining time stays non-negative. |
| Dryer.TickStep | src/main_page.py:225-227 | A tick takes exactly one second off while running with time left. Otherwise it changes nothing. The remaining time never goes below zero. |
| Dryer.CountdownRunsOut | src/main_page.py:225-230 | From `r > 0` seconds, running, tick `n < r` leaves `r − n` seconds and everything else as it was. Tick `r` stops the dryer with 0 s left, heater off and PWM 0. |
| Dryer.StartWithNoTimeLeft | src/main_page.py:44-56 | Starting with 0 s left turns the heater on at PWM 255. No number of later ticks changes that state. |
| Dryer.MainPage.UpdateSelectedPreset | src/main_page.py:176-189 | Selecting a preset sets the target, the preset time and `remaining_time = drying_time * 60`, whether or not the dryer runs. For a missing name, only the selection changes and `found` is false (the `KeyError`). |
| Dryer.MainPage.SimulateEnvironment | src/main_page.py:194-207 | Each history becomes `Push` of its old value with the new sample at capacity 60. `Valid()` is kept, so the three histories stay equal-length, at most 60, and equal to the last 60 samples in push order. |
| Dryer.CountdownSplit | src/main_page.py:215-217 | Seconds are in [0, 59] and `mins * 60 + secs == remaining`. Minutes are non-negative for a non-negative remaining time. |
| Dryer.CountdownSplitUnique | src/main_page.py:216 | Any minutes and seconds with seconds in [0, 59] that add up to the remaining time are the ones shown. |
| Rolling.PushWindow | src/main_page.py:200-206 | Pushing onto the window of earlier samples gives the window of all samples. |
| Rolling.HistoryIsLastN | src/main_page.py:200-206 | After any sequence of pushes, the history holds exactly the last `min(n, cap)` samples, oldest first. |
| TestMode.HeaterDuty | src/testing_page.py:215-228 | The PWM value is one of {0, 10, 30, 60, 100}. It is positive exactly when the error is positive. |
| TestMode.HeaterDutyBrackets | src/testing_page.py:216-227 | Each level is commanded exactly on its bracket: above 5 → 100, (2, 5] → 60, (0.5, 2] → 30, (0, 0.5] → 10, at most 0 → 0. The lower bracket owns each boundary. |
| TestMode.HeaterDutyMonotone | src/testing_page.py:216-227 | A larger error never commands less power. |
| TestMode.PwmCommand | src/testing_page.py:214-231 | The PWM value is 0 when control is off or the target is not positive. Otherwise it is positive exactly when the temperature is below the target. |
| TestMode.ClampTemperature | src/testing_page.py:209 | The result is in [20, 100]. A temperature in range is kept. Out-of-range temperatures go to the nearer bound. |
| TestMode.Drift | src/testing_page.py:201-206 | With control on and a positive target, the temperature rises by [0.1, 0.5] below the target and falls by [0.1, 0.3] above it. In every other case it is unchanged. |
| TestMode.TestingPage.constructor | src/testing_page.py:58-69 | The page starts with target 0, current temperature 25 °C, control off and empty histories. |
| TestMode.TestingPage.SetTargetTemperature | src/testing_page.py:170-176 | A parsed value becomes the target. Input that does not parse leaves the target unchanged. |
| TestMode.TestingPage.ToggleTemperatureControl | src/testing_page.py:178-183 | The control flag is negated. |
| TestMode.TestingPage.UpdateUi | src/testing_page.py:197-239 | The temperature is the clamped drift, always within [20, 100]. The PWM value is the threshold command on the new temperature. One entry is then pushed on each history at capacity 120 (`RecordSample`), and `Valid()` is kept. |
| TestMode.TestingPage.RecordSample | src/testing_page.py:236-239 | One entry is pushed on each of the three histories at capacity 120. `Valid()` is kept, so they stay equal-length and hold the last 120 entries. |
| Settings.MigrateEntry | src/settings_page.py:257-264 | A dict entry is kept. A bare integer `n` becomes `{temperature: n, drying_time: 60}`. A string migrates exactly when `int(text.replace('°C', ''))` succeeds, and then becomes `{temperature: that integer, drying_time: 60}`. Any other value fails. |
| Settings.MigrateLegacyEntry | src/settings_page.py:261-264 | A legacy `"N°C"` entry becomes `{temperature: N, drying_time: 60}`. |
| Settings.LoadedPresets | src/settings_page.py:251-271 | A missing or undecodable file gives the defaults. A decoded non-dict fails. A decoded dict loads exactly when every entry migrates, and then keeps the key set with each value migrated. Every loaded entry is a dict. |
| Settings.LoadPresets | src/settings_page.py:251-271 | The entry-by-entry loop builds exactly `LoadedPresets(file)`. |
| Settings.CheckSavable | src/settings_page.py:357-366 | The loop accepts exactly the non-empty tables whose every entry is a dict holding both `temperature` and `drying_time`. |
| Settings.SaveLoadRoundTrip | src/settings_page.py:257-265 | A table that passes the save validation is loaded back unchanged. |
| Settings.DefaultsSavable | src/settings_page.py:267-271 | The defaults pass the save validation. |
| Settings.StoringRecordKeepsSavable | src/settings_page.py:43 | Storing a record in a table that passes the save validation keeps it passing. |
| Settings.SortedNames | src/settings_page.py:225 | `sorted()` of the names lists each name exactly once, in strictly increasing string order. |
| Settings.GridCellsDistinct | src/settings_page.py:241-244 | A label never shares a cell with a button. Two different indices never share a label cell or a button cell. |
| Settings.Layout | src/settings_page.py:226-244 | The preset at index `i` gets its label at `(i / 2, (i % 2) * 2)` and its button one column to the right. |
| Settings.LayoutCellsDistinct | src/settings_page.py:241-244 | No widget of the grid shares its cell with another. |
| Settings.PresetsGrid | src/settings_page.py:215-244 | The grid has one entry per preset and holds exactly the table's names, in sorted order. No two widgets share a cell. |
| Settings.Renamed | src/settings_page.py:87-90 | The key set loses the edited preset's old name and gains the new one. The new name maps to the new record, overwriting any preset of that name. Every other entry is unchanged. |
| Settings.Added | src/settings_page.py:29-43 | Checks run in this order: a non-integer temperature or time, then an empty name, then a name already taken. Each rejection holds exactly in its case and leaves the table unchanged. The add is stored exactly when all three checks pass. A stored add inserts exactly `name ↦ {temperature, drying_time}` and keeps every other entry. |
| Settings.Edited | src/settings_page.py:76-90 | Edit rejects a non-integer field first, then an empty name, with no duplicate check. The only other rejection is renaming a preset that is gone. Each rejection leaves the table unchanged. A stored edit gives `Renamed(t, preset, name, record)`. |
| Settings.LegacyAdded | src/settings_page.py:318-332 | Checks run in this order: an empty name or temperature, then a name already taken, then a temperature that is not an integer once `°C` is removed. Each rejection holds exactly in its case and leaves the table unchanged. The add is stored exactly when all three checks pass. A stored add inserts `{temperature: N, drying_time: 60}` under the new name. |
| Settings.SettingsPage.constructor | src/settings_page.py:115-118 | The page's table is what `load_presets` returns for the file. |
| Settings.SettingsPage.SavePresets | src/settings_page.py:356-369 | The file is written exactly when the table passes validation. Otherwise it is untouched. |
| Settings.SettingsPage.AcceptAdd | src/settings_page.py:29-47 | The table becomes what `Added` decides for the stripped name and the fields read by `int(text.strip())`. The file is rewritten only when a record was stored and the table passes validation. |
| Settings.SettingsPage.AcceptEdit | src/settings_page.py:76-94 | The table becomes what `Edited` decides for the stripped name and the parsed fields. The file is rewritten only when the edit was stored and the table passes validation. |
| Settings.SettingsPage.Delete | src/settings_page.py:95-105 | The key is removed if present, otherwise the table is unchanged. The file is rewritten only when presets remain and pass validation. |
| Settings.SettingsPage.AcceptSlider | src/settings_page.py:305-311 | Only the preset's `temperature` changes, and every other field of it, `drying_time` included, is kept. The save happens only when the entry has a drying time. |
| Settings.SettingsPage.AddPreset | src/settings_page.py:318-348 | The table becomes what `LegacyAdded` decides for the stripped name and temperature. The file is rewritten only when a record was stored and the table passes validation. |
| Decimal.IntRoundTrip | src/settings_page.py:61-80 | `int(str(v)) == v` for every integer, as the edit dialog's prefilled fields are read back. |
| Decimal.CelsiusRoundTrip | src/preset_selection_page.py:110 | `int(f'{v}°C'.replace('°C', '')) == v` for every integer. |
| Decimal.PlainIntegerAsCelsius | src/settings_page.py:262 | `int(str(n).replace('°C', '')) == n`, so the migration keeps a bare integer's value. |
| PresetSelection.LoadedPresets | src/preset_selection_page.py:66-75 | A missing or undecodable file gives the three defaults. A decoded dict is taken as it is. Any other decoded value fails. |
| PresetSelection.DefaultsAreLegacyValues | src/preset_selection_page.py:71-75 | The defaults are the `"N°C"` forms of 34, 69 and 55. |
| PresetSelection.GridCellsDiffer | src/preset_selection_page.py:40-45 | Two positions of the three-column grid never share a cell. |
| PresetSelection.PlaceButtons | src/preset_selection_page.py:30-45 | The `row` and `col` counters give the `i`-th preset the cell `(i / 3, i % 3)`, and no two buttons share a cell. |
| PresetSelection.SliderClamp | src/preset_selection_page.py:107-110 | A slider position is always in [0, 100]. A value in range is kept, and a value outside goes to the nearer end. |
| PresetSelection.SliderPosition | src/preset_selection_page.py:107-110 | A string value opens a slider exactly when it parses as `"N°C"` and `N` fits a C `int` (otherwise `setValue` raises). The position is in [0, 100], and it is `N` when `N` is in [0, 100]. |
| PresetSelection.SliderPositionOutOfRange | src/preset_selection_page.py:110 | A stored `"N°C"` with `N` beyond the C `int` range keeps the dialog from opening. One that fits but lies outside [0, 100] opens at the nearer end. |
| PresetSelection.SliderPositionOfLegacyValue | src/preset_selection_page.py:110 | A stored `"N°C"` value with `N` in [0, 100] opens its slider at `N`. |
| PresetSelection.EditDialogSliders | src/preset_selection_page.py:100-127 | The dialog opens exactly when every value gives a slider position, that is a string `"N°C"` with `N` a C `int`. It then has one slider per preset, each in [0, 100]. |
| PresetSelection.ReopenAfterSave | src/preset_selection_page.py:154-158 | Reopening the dialog on a table it saved puts every slider back where it was. |
| PresetSelection.DefaultsOpen | src/preset_selection_page.py:71-75 | The defaults open with the sliders at 34, 69 and 55. |
| PresetSelection.SavedTableMigrates | src/preset_selection_page.py:156-163 | A table saved by this page loads on the settings page with each temperature kept and a drying time of 60. |
| PresetSelection.PresetSelectionPage.constructor | src/preset_selection_page.py:12-15 | The page's table is what `load_presets` returns for the file. |
| PresetSelection.PresetSelectionPage.SaveEditedPresets | src/preset_selection_page.py:154-166 | Every preset with a slider gets `f'{slider}°C'`, with the slider in [0, 100]. Other entries stay as they were. No key is added or removed when the sliders are the dialog's own. The table is written. |

## Left out

- Widgets, layouts, styling, message boxes, signals and `QTimer`s. Timer ticks and dialog buttons are explicit method calls. Button and label texts are not modelled.
- JSON I/O. The file is an abstract value. A write that raises (`save_presets`, `save_edited_presets`) is not modelled: every save that passes validation succeeds.
- `json.load` producing floats, booleans, `null` or lists. These are all one `OtherValue`: none of them is a dict, and `str()` of none of them is an integer literal.
- `random.uniform`, `datetime.now()` and `time.time()`. Their values are parameters, bounded by the sampled ranges where those matter.
- Floating point. Temperatures on the main and test pages are `real`. Rounding, NaN and infinities are not modelled.
- Test-mode hardware and threads: GPIO detection, the mock PWM and GPIO classes, the sensor thread and `closeEvent`. The nested, never-called `init_ui` at src/testing_page.py:80-106 is left out too. As written, line 99 of that file is indented unexpectedly, so the module does not compile. Even with that fixed, `temp_label`, `heating_label`, `pwm_value_label`, `target_temp_input`, `temp_control_btn` and `update_timer` are created only inside that nested function, so `update_ui` would raise `AttributeError` at line 211 and `set_target_temperature` at line 172. The model assumes those widgets exist.
- TestMode.TestingPage.SetTargetTemperature: takes the result of `float()` as a parameter, because parsing floating-point text is not modelled.
- Decimal.ParseInt: does not accept the underscores (`"1_000"`) or the non-ASCII decimal digits that Python's `int()` accepts. A user who types such a number into a dialog sees it rejected as `NotANumber` in the model, where the program would accept it.
- `save_pid_values`. It parses three floats that nothing else reads.
- `update_presets` (src/main_page.py:15-43) replaces the main page's table with the settings page's dict, shared by reference, when the settings page emits `presets_changed`. Replacing the table is not modelled: `Dryer.MainPage.presets` stays the built-in table, so the `KeyError` that `update_selected_preset` raises on an entry without `drying_time` is not modelled either.
- `change_preset` is a plain call of `update_selected_preset`.
- `select_preset` on the preset selection page. It only prints and emits the chosen name.
- `set_preset_value_and_close` (src/settings_page.py:350-354). It reads `self.slider`, which no code creates, so it can never run.
- The legacy `add_preset` reads two input fields that `init_ui` never creates. It is modelled on its inputs as text anyway.
- The edit dialog's delete confirmation. `Delete` models the confirmed branch.
- Errors raised when dialogs open: a missing preset in `open_edit_preset_dialog`, and a missing or non-integer temperature in `open_slider_popup`. Settings.SettingsPage.AcceptSlider requires that its preset exists as a dict, as the popup's opening guarantees.
- The iteration order of a Python dict. `PlaceButtons` takes the order as a sequence of names.
- `src/filament_dryer_gui.py`, `src/debugging_page.py` and `src/pin_definitions.py` are not part of this model.
- A page whose file fails to load is not constructed. `load_presets` raises out of `__init__` then (an unreadable entry or a non-dict on the settings page, a non-dict on the preset selection page). The constructors require `LoadedPresets(f).Success?`, and the `Failure` results of the two `LoadedPresets` functions stand for that exception.
- Decimal.IntRoundTrip: holds for integers of every size. CPython 3.11 and later raises `ValueError` in `int()` and `str()` beyond 4300 digits, and that limit is not modelled.
