/**
 * The settings page: the preset table keyed by name, its add, edit, delete
 * and slider dialogs, the migration of legacy `"N°C"` entries when the file is
 * loaded, the validation that guards saving, and the placement of presets on
 * the two-presets-per-row grid (src/settings_page.py).
 */
module Settings {
  import opened Results
  import opened Decimal
  import opened Store

  const TemperatureKey: string := "temperature"
  const DryingTimeKey: string := "drying_time"

  /** The drying time given to presets that are created without one, in minutes. */
  const DefaultDryingTime: int := 60

  /** `{'temperature': temperature, 'drying_time': dryingTime}`. */
  function PresetRecord(temperature: int, dryingTime: int): (v: Value)
    ensures v.Dict? && v.entries.Keys == {TemperatureKey, DryingTimeKey}
    ensures v.entries[TemperatureKey] == Int(temperature) && v.entries[DryingTimeKey] == Int(dryingTime)
  {
    Dict(map[TemperatureKey := Int(temperature), DryingTimeKey := Int(dryingTime)])
  }

  /** The table used when the file is missing or is not valid JSON. */
  function DefaultPresets(): Table {
    map[
      "PLA" := PresetRecord(34, 60),
      "ABS" := PresetRecord(69, 120),
      "PETG" := PresetRecord(55, 90)
    ]
  }

  /**
   * The migration of one loaded entry: a dict is kept as it is; anything else
   * becomes a record whose temperature is `int(str(v).replace('°C', ''))` and
   * whose drying time is 60. `None` stands for the `ValueError` that `int()`
   * raises, which escapes `load_presets`.
   */
  function MigrateEntry(v: Value): (r: Option<Value>)
    ensures v.Dict? ==> r == Some(v)
    ensures v.Int? ==> r == Some(PresetRecord(v.number, DefaultDryingTime))
    ensures v.OtherValue? ==> r == None
    ensures v.Str? ==> (r.Some? <==> ParseCelsius(v.text).Some?)
    ensures v.Str? && r.Some? ==> r.value == PresetRecord(ParseCelsius(v.text).value, DefaultDryingTime)
    ensures r.Some? ==> r.value.Dict?
  {
    match v
    case Dict(_) => Some(v)
    case Str(s) => LegacyRecord(ParseCelsius(s))
    case Int(n) => PlainIntegerAsCelsius(n); LegacyRecord(ParseCelsius(IntToString(n)))
    case OtherValue => None
  }

  function LegacyRecord(temperature: Option<int>): Option<Value> {
    if temperature.Some? then Some(PresetRecord(temperature.value, DefaultDryingTime)) else None
  }

  /** A legacy `"N°C"` entry becomes `{temperature: N, drying_time: 60}`. */
  lemma MigrateLegacyEntry(n: int)
    ensures MigrateEntry(Str(FormatCelsius(n))) == Some(PresetRecord(n, DefaultDryingTime))
  {
    CelsiusRoundTrip(n);
  }

  datatype LoadError =
    | NotADict          // the decoded JSON has no `.items()`
    | UnreadableEntry   // `int()` raised on a non-dict entry

  /**
   * `load_presets`: the defaults when the file is missing or undecodable,
   * otherwise the decoded dict with every entry migrated.
   */
  function LoadedPresets(file: PresetFile): (r: Result<Table, LoadError>)
    ensures file.Missing? || file.Undecodable? ==> r == Success(DefaultPresets())
    ensures file.Decoded? && !file.content.Dict? ==> r == Failure(NotADict)
    ensures file.Decoded? && file.content.Dict? ==>
      (r.Success? <==> forall k :: k in file.content.entries ==> MigrateEntry(file.content.entries[k]).Some?)
    ensures r.Success? && file.Decoded? ==>
      && r.value.Keys == file.content.entries.Keys
      && forall k :: k in r.value ==> Some(r.value[k]) == MigrateEntry(file.content.entries[k])
    ensures r.Success? ==> forall k :: k in r.value ==> r.value[k].Dict?
  {
    match file
    case Missing => Success(DefaultPresets())
    case Undecodable => Success(DefaultPresets())
    case Decoded(content) =>
      if !content.Dict? then
        Failure(NotADict)
      else if forall k :: k in content.entries ==> MigrateEntry(content.entries[k]).Some? then
        Success(map k | k in content.entries :: MigrateEntry(content.entries[k]).value)
      else
        Failure(UnreadableEntry)
  }

  /** `load_presets`, entry by entry as the program's loop builds the migrated dict. */
  method LoadPresets(file: PresetFile) returns (r: Result<Table, LoadError>)
    ensures r == LoadedPresets(file)
  {
    if !file.Decoded? {
      return Success(DefaultPresets());
    }
    if !file.content.Dict? {
      return Failure(NotADict);
    }
    var data := file.content.entries;
    var migrated: Table := map[];
    var pending := data.Keys;
    while pending != {}
      invariant pending <= data.Keys
      invariant migrated.Keys == data.Keys - pending
      invariant forall k :: k in migrated ==> MigrateEntry(data[k]) == Some(migrated[k])
      decreases pending
    {
      var k :| k in pending;
      var entry := MigrateEntry(data[k]);
      if entry.None? {
        assert !(forall k :: k in data ==> MigrateEntry(data[k]).Some?);
        return Failure(UnreadableEntry);
      }
      migrated := migrated[k := entry.value];
      pending := pending - {k};
    }
    MigratedEveryEntry(data, migrated);
    return Success(migrated);
  }

  /** A table holding the migration of every entry of `data` is the migrated table. */
  lemma MigratedEveryEntry(data: map<string, Value>, migrated: Table)
    requires migrated.Keys == data.Keys
    requires forall k :: k in migrated ==> MigrateEntry(data[k]) == Some(migrated[k])
    ensures forall k :: k in data ==> MigrateEntry(data[k]).Some?
    ensures migrated == map k | k in data :: MigrateEntry(data[k]).value
  {
  }

  /** An entry `save_presets` accepts: a dict holding both a temperature and a drying time. */
  predicate IsPresetRecord(v: Value) {
    v.Dict? && TemperatureKey in v.entries && DryingTimeKey in v.entries
  }

  /** What `save_presets` requires before writing: a non-empty table of valid entries. */
  predicate Savable(t: Table) {
    |t| > 0 && forall k :: k in t ==> IsPresetRecord(t[k])
  }

  /** The validation loop of `save_presets`, which stops at the first invalid entry. */
  method CheckSavable(t: Table) returns (ok: bool)
    ensures ok <==> |t| > 0 && forall k :: k in t ==> IsPresetRecord(t[k])
  {
    if |t| == 0 {
      return false;
    }
    var pending := t.Keys;
    while pending != {}
      invariant pending <= t.Keys
      invariant forall k :: k in t && k !in pending ==> IsPresetRecord(t[k])
      decreases pending
    {
      var k :| k in pending;
      if !IsPresetRecord(t[k]) {
        return false;
      }
      pending := pending - {k};
    }
    return true;
  }

  /** A table the settings page saves is read back unchanged by `load_presets`. */
  lemma SaveLoadRoundTrip(t: Table)
    requires Savable(t)
    ensures LoadedPresets(Decoded(Dict(t))) == Success(t)
  {
    var r := LoadedPresets(Decoded(Dict(t)));
    assert forall k :: k in t ==> MigrateEntry(t[k]) == Some(t[k]);
    assert r.Success?;
    assert r.value == t;
  }

  /** The defaults pass the save validation. */
  lemma DefaultsSavable()
    ensures Savable(DefaultPresets())
  {
    assert "PLA" in DefaultPresets();
  }

  /** Storing a record in a table that passes the save validation keeps it passing. */
  lemma StoringRecordKeepsSavable(t: Table, name: string, temperature: int, dryingTime: int)
    requires Savable(t)
    ensures Savable(t[name := PresetRecord(temperature, dryingTime)])
  {
    assert name in t[name := PresetRecord(temperature, dryingTime)];
  }

  // Grid placement of `refresh_presets_grid`.

  /** Python's `a < b` on strings: code-point lexicographic order. */
  predicate Before(a: string, b: string) {
    if a == [] then b != []
    else if b == [] then false
    else a[0] < b[0] || (a[0] == b[0] && Before(a[1..], b[1..]))
  }

  lemma {:induction false} BeforeTransitive(a: string, b: string, c: string)
    requires Before(a, b) && Before(b, c)
    ensures Before(a, c)
  {
    if a != [] && a[0] == b[0] && b[0] == c[0] {
      BeforeTransitive(a[1..], b[1..], c[1..]);
    }
  }

  lemma {:induction false} BeforeTotal(a: string, b: string)
    requires a != b
    ensures Before(a, b) || Before(b, a)
  {
    if a != [] && b != [] && a[0] == b[0] {
      assert a == [a[0]] + a[1..] && b == [b[0]] + b[1..];
      BeforeTotal(a[1..], b[1..]);
    }
  }

  ghost predicate IsFirst(m: string, names: set<string>) {
    m in names && forall x :: x in names && x != m ==> Before(m, x)
  }

  /** Every non-empty set of names has a first one in string order. */
  lemma {:induction false} FirstExists(names: set<string>)
    requires names != {}
    ensures exists m :: IsFirst(m, names)
    decreases names
  {
    var y :| y in names;
    if names == {y} {
      assert IsFirst(y, names);
    } else {
      FirstExists(names - {y});
      var m :| IsFirst(m, names - {y});
      if Before(y, m) {
        forall x | x in names && x != y
          ensures Before(y, x)
        {
          if x != m {
            BeforeTransitive(y, m, x);
          }
        }
        assert IsFirst(y, names);
      } else {
        BeforeTotal(y, m);
        assert IsFirst(m, names);
      }
    }
  }

  /** `sorted(names)`: every name once, in strictly increasing string order. */
  ghost function SortedNames(names: set<string>): (r: seq<string>)
    ensures |r| == |names|
    ensures forall x :: x in names <==> x in r
    ensures forall i, j :: 0 <= i < j < |r| ==> Before(r[i], r[j])
    decreases names
  {
    if names == {} then []
    else
      FirstExists(names);
      var m :| IsFirst(m, names);
      var rest := SortedNames(names - {m});
      assert forall j :: 0 <= j < |rest| ==> rest[j] in names - {m};
      [m] + rest
  }

  /** A cell of the preset grid. */
  datatype Cell = Cell(row: nat, column: nat)

  /** The preset at position `index` of the sorted names: label, then its button to the right. */
  function LabelCell(index: nat): Cell {
    Cell(index / 2, (index % 2) * 2)
  }

  function ButtonCell(index: nat): Cell {
    Cell(index / 2, (index % 2) * 2 + 1)
  }

  /** No two widgets of the grid share a cell. */
  lemma GridCellsDistinct(i: nat, j: nat)
    ensures LabelCell(i) != ButtonCell(j)
    ensures i != j ==> LabelCell(i) != LabelCell(j) && ButtonCell(i) != ButtonCell(j)
  {
    assert i == 2 * (i / 2) + i % 2 && j == 2 * (j / 2) + j % 2;
  }

  /** One preset on the grid: its name, the cell of its name label and the cell of its button. */
  datatype GridEntry = GridEntry(name: string, nameCell: Cell, buttonCell: Cell)

  /** The presets named by `names`, in that order, two per row. */
  function Layout(names: seq<string>): (grid: seq<GridEntry>)
    ensures |grid| == |names|
    ensures forall i :: 0 <= i < |grid| ==> grid[i] == GridEntry(names[i], LabelCell(i), ButtonCell(i))
  {
    seq(|names|, i requires 0 <= i < |names| => GridEntry(names[i], LabelCell(i), ButtonCell(i)))
  }

  /** No widget of a layout shares its cell with another. */
  lemma LayoutCellsDistinct(names: seq<string>)
    ensures var grid := Layout(names);
      forall i, j :: 0 <= i < |grid| && 0 <= j < |grid| ==>
        && grid[i].nameCell != grid[j].buttonCell
        && (i != j ==> grid[i].nameCell != grid[j].nameCell && grid[i].buttonCell != grid[j].buttonCell)
  {
    var grid := Layout(names);
    forall i, j | 0 <= i < |grid| && 0 <= j < |grid|
      ensures grid[i].nameCell != grid[j].buttonCell
      ensures i != j ==> grid[i].nameCell != grid[j].nameCell && grid[i].buttonCell != grid[j].buttonCell
    {
      GridCellsDistinct(i, j);
    }
  }

  /** A layout of a list of names places exactly those names. */
  lemma LayoutNames(names: seq<string>, t: Table)
    requires forall x :: x in t.Keys <==> x in names
    ensures forall name :: name in t ==> exists i :: 0 <= i < |Layout(names)| && Layout(names)[i].name == name
    ensures forall i :: 0 <= i < |Layout(names)| ==> Layout(names)[i].name in t
  {
    var grid := Layout(names);
    forall name | name in t
      ensures exists i :: 0 <= i < |grid| && grid[i].name == name
    {
      var i :| 0 <= i < |names| && names[i] == name;
      assert grid[i].name == name;
    }
    forall i | 0 <= i < |grid|
      ensures grid[i].name in t
    {
      assert names[i] in names;
    }
  }

  /**
   * `refresh_presets_grid`: the presets in sorted name order, two per row,
   * each label followed by its button, every widget in a cell of its own.
   */
  ghost function PresetsGrid(t: Table): (grid: seq<GridEntry>)
    ensures |grid| == |t|
    ensures forall name :: name in t ==> exists i :: 0 <= i < |grid| && grid[i].name == name
    ensures forall i :: 0 <= i < |grid| ==> grid[i].name in t
    ensures forall i, j :: 0 <= i < j < |grid| ==> Before(grid[i].name, grid[j].name)
    ensures forall i, j :: 0 <= i < |grid| && 0 <= j < |grid| ==>
      && grid[i].nameCell != grid[j].buttonCell
      && (i != j ==> grid[i].nameCell != grid[j].nameCell && grid[i].buttonCell != grid[j].buttonCell)
  {
    var names := SortedNames(t.Keys);
    LayoutCellsDistinct(names);
    LayoutNames(names, t);
    Layout(names)
  }

  // The page and its dialogs.

  /**
   * The table after an edit stores `v` under `name`: the edited preset's old
   * key is gone unless it is `name`, an entry already named `name` is
   * overwritten, and every other entry is as it was.
   */
  function Renamed(t: Table, preset: string, name: string, v: Value): (r: Table)
    ensures r.Keys == t.Keys - {preset} + {name}
    ensures r[name] == v
    ensures forall k :: k in t && k != preset && k != name ==> r[k] == t[k]
  {
    (if name != preset then t - {preset} else t)[name := v]
  }

  datatype Rejection =
    | NotANumber      // int() raised on the temperature or the drying time
    | NameRequired    // the trimmed name is empty
    | AlreadyExists   // a preset of that name exists
    | MissingInput    // the legacy form's name or temperature is empty
    | NoSuchPreset    // the preset being renamed is no longer in the table (KeyError)

  datatype Outcome = Stored | Rejected(reason: Rejection)

  /**
   * The add dialog's decision on the table `t`, given the stripped name and
   * what `int()` made of the two number fields. A non-number is rejected
   * first, then an empty name, then a name already taken; otherwise exactly
   * the new record is inserted and nothing else changes.
   */
  function Added(t: Table, name: string, temperature: Option<int>, time: Option<int>): (r: (Outcome, Table))
    ensures r.0 == Rejected(NotANumber) <==> temperature.None? || time.None?
    ensures r.0 == Rejected(NameRequired) <==> temperature.Some? && time.Some? && name == ""
    ensures r.0 == Rejected(AlreadyExists) <==> temperature.Some? && time.Some? && name != "" && name in t
    ensures r.0.Stored? <==> temperature.Some? && time.Some? && name != "" && name !in t
    ensures r.0.Rejected? ==> r.1 == t
    ensures r.0.Stored? ==>
      && temperature.Some? && time.Some? && name !in t
      && r.1.Keys == t.Keys + {name}
      && r.1[name] == PresetRecord(temperature.value, time.value)
      && forall k :: k in t ==> r.1[k] == t[k]
  {
    if temperature.None? || time.None? then (Rejected(NotANumber), t)
    else if name == "" then (Rejected(NameRequired), t)
    else if name in t then (Rejected(AlreadyExists), t)
    else (Stored, t[name := PresetRecord(temperature.value, time.value)])
  }

  /**
   * The edit dialog's decision for `preset`: the same number and name checks
   * as adding but no duplicate check, so the only other failure is renaming a
   * preset that is no longer there (`KeyError`). A stored edit is `Renamed`.
   */
  function Edited(t: Table, preset: string, name: string, temperature: Option<int>, time: Option<int>)
    : (r: (Outcome, Table))
    ensures r.0 == Rejected(NotANumber) <==> temperature.None? || time.None?
    ensures r.0 == Rejected(NameRequired) <==> temperature.Some? && time.Some? && name == ""
    ensures r.0 == Rejected(NoSuchPreset) <==>
      temperature.Some? && time.Some? && name != "" && name != preset && preset !in t
    ensures r.0 != Rejected(AlreadyExists) && r.0 != Rejected(MissingInput)
    ensures r.0.Rejected? ==> r.1 == t
    ensures r.0.Stored? ==>
      temperature.Some? && time.Some? && r.1 == Renamed(t, preset, name, PresetRecord(temperature.value, time.value))
  {
    if temperature.None? || time.None? then (Rejected(NotANumber), t)
    else if name == "" then (Rejected(NameRequired), t)
    else if name != preset && preset !in t then (Rejected(NoSuchPreset), t)
    else (Stored, Renamed(t, preset, name, PresetRecord(temperature.value, time.value)))
  }

  /**
   * The legacy `add_preset` decision, given the stripped name and temperature
   * texts: both must be non-empty, then the name new, then the temperature an
   * integer once `°C` is removed. The record gets the default drying time.
   */
  function LegacyAdded(t: Table, name: string, temperature: string): (r: (Outcome, Table))
    ensures r.0 == Rejected(MissingInput) <==> name == "" || temperature == ""
    ensures r.0 == Rejected(AlreadyExists) <==> name != "" && temperature != "" && name in t
    ensures r.0 == Rejected(NotANumber) <==>
      name != "" && temperature != "" && name !in t && ParseCelsius(temperature).None?
    ensures r.0.Stored? <==> name != "" && temperature != "" && name !in t && ParseCelsius(temperature).Some?
    ensures r.0.Rejected? ==> r.1 == t
    ensures r.0.Stored? ==>
      && ParseCelsius(temperature).Some? && name !in t
      && r.1 == t[name := PresetRecord(ParseCelsius(temperature).value, DefaultDryingTime)]
  {
    if name == "" || temperature == "" then (Rejected(MissingInput), t)
    else if name in t then (Rejected(AlreadyExists), t)
    else if ParseCelsius(temperature).None? then (Rejected(NotANumber), t)
    else (Stored, t[name := PresetRecord(ParseCelsius(temperature).value, DefaultDryingTime)])
  }

  class SettingsPage {
    var presets: Table
    /** The content of `presets.json` as last read or written. */
    var file: PresetFile

    /** The page as created: the table loaded (and migrated) from the file. */
    constructor (f: PresetFile)
      requires LoadedPresets(f).Success?
      ensures presets == LoadedPresets(f).value && file == f
    {
      var loaded := LoadPresets(f);
      presets := loaded.value;
      file := f;
    }

    /** `save_presets`: writes the table only when it is non-empty and every entry is a valid record. */
    method SavePresets() returns (written: bool)
      modifies this`file
      ensures written == Savable(presets)
      ensures file == if written then Decoded(Dict(presets)) else old(file)
    {
      written := CheckSavable(presets);
      if written {
        file := Decoded(Dict(presets));
      }
    }

    /** Applies a dialog's decision: the table it computed, then a save when a record was stored. */
    method Commit(decision: (Outcome, Table)) returns (outcome: Outcome)
      modifies this`presets, this`file
      ensures (outcome, presets) == decision
      ensures file == if outcome.Stored? && Savable(presets) then Decoded(Dict(presets)) else old(file)
    {
      outcome, presets := decision.0, decision.1;
      if outcome.Stored? {
        var _ := SavePresets();
      }
    }

    /** The add dialog's `accept`: the decision of `Added`, and a save when a record was stored. */
    method AcceptAdd(nameText: string, temperatureText: string, timeText: string) returns (outcome: Outcome)
      modifies this`presets, this`file
      ensures (outcome, presets) ==
        Added(old(presets), Trim(nameText), ParseInt(Trim(temperatureText)), ParseInt(Trim(timeText)))
      ensures file == if outcome.Stored? && Savable(presets) then Decoded(Dict(presets)) else old(file)
    {
      // A rejected decision hands back the table it was given.
      outcome :=
        Commit(Added(presets, Trim(nameText), ParseInt(Trim(temperatureText)), ParseInt(Trim(timeText))));
    }

    /** The edit dialog's `accept` for `preset`: the decision of `Edited`, and a save when it stored. */
    method AcceptEdit(preset: string, nameText: string, temperatureText: string, timeText: string)
      returns (outcome: Outcome)
      modifies this`presets, this`file
      ensures (outcome, presets) ==
        Edited(old(presets), preset, Trim(nameText), ParseInt(Trim(temperatureText)), ParseInt(Trim(timeText)))
      ensures file == if outcome.Stored? && Savable(presets) then Decoded(Dict(presets)) else old(file)
    {
      outcome :=
        Commit(Edited(presets, preset, Trim(nameText), ParseInt(Trim(temperatureText)), ParseInt(Trim(timeText))));
    }

    /**
     * The edit dialog's confirmed `delete`: removes the key if present (no-op
     * otherwise) and saves only when presets remain.
     */
    method Delete(preset: string)
      modifies this`presets, this`file
      ensures presets == old(presets) - {preset}
      ensures file == if preset in old(presets) && Savable(presets) then Decoded(Dict(presets)) else old(file)
    {
      if preset in presets {
        presets := presets - {preset};
        if |presets| > 0 {
          var _ := SavePresets();
        }
      }
    }

    /**
     * The slider popup's `accept` for `preset`, whose dialog read the preset's
     * temperature when it opened: only the temperature changes. When the entry
     * has no drying time the button text raises `KeyError` before the save.
     */
    method AcceptSlider(preset: string, newTemperature: int) returns (saved: bool)
      requires preset in presets && presets[preset].Dict?
      requires 0 <= newTemperature <= 100
      modifies this`presets, this`file
      ensures presets == old(presets)[preset := Dict(old(presets)[preset].entries[TemperatureKey := Int(newTemperature)])]
      ensures presets[preset].entries.Keys == old(presets)[preset].entries.Keys + {TemperatureKey}
      ensures forall key :: key in old(presets)[preset].entries && key != TemperatureKey ==>
        presets[preset].entries[key] == old(presets)[preset].entries[key]
      ensures saved == (DryingTimeKey in old(presets)[preset].entries && Savable(presets))
      ensures file == if saved then Decoded(Dict(presets)) else old(file)
    {
      var entries := presets[preset].entries;
      presets := presets[preset := Dict(entries[TemperatureKey := Int(newTemperature)])];
      if DryingTimeKey !in entries {
        return false;
      }
      saved := SavePresets();
    }

    /** The legacy `add_preset`: the decision of `LegacyAdded`, and a save when it stored. */
    method AddPreset(nameText: string, temperatureText: string) returns (outcome: Outcome)
      modifies this`presets, this`file
      ensures (outcome, presets) == LegacyAdded(old(presets), Trim(nameText), Trim(temperatureText))
      ensures file == if outcome.Stored? && Savable(presets) then Decoded(Dict(presets)) else old(file)
    {
      outcome := Commit(LegacyAdded(presets, Trim(nameText), Trim(temperatureText)));
    }
  }
}
