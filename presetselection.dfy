/**
 * The older preset selection page, whose presets are stored as `"N°C"`
 * strings: its defaults, the three-column button grid, the sliders of its edit
 * dialog and the save that writes them back (src/preset_selection_page.py).
 */
module PresetSelection {
  import opened Results
  import opened Decimal
  import opened Store
  import Settings

  /** Buttons are laid out this many to a row. */
  const Columns: nat := 3

  /** The edit dialog's sliders run from 0 to 100 °C. */
  const SliderMinimum: int := 0
  const SliderMaximum: int := 100

  /** `QSlider.setValue` takes a C `int`; PyQt raises `OverflowError` outside this range. */
  const CIntMinimum: int := -0x8000_0000
  const CIntMaximum: int := 0x7FFF_FFFF

  /** The table used when the file is missing or is not valid JSON. */
  function DefaultPresets(): Table {
    map["PLA" := Str("34\U{00B0}C"), "ABS" := Str("69\U{00B0}C"), "PETG" := Str("55\U{00B0}C")]
  }

  datatype LoadError = NotADict   // the page's grid loop calls `.items()` on what was decoded

  /** `load_presets`: the decoded JSON as it is, or the defaults when there is none. */
  function LoadedPresets(file: PresetFile): (r: Result<Table, LoadError>)
    ensures file.Missing? || file.Undecodable? ==> r == Success(DefaultPresets())
    ensures file.Decoded? ==> (r.Success? <==> file.content.Dict?)
    ensures file.Decoded? && r.Success? ==> r.value == file.content.entries
  {
    match file
    case Missing => Success(DefaultPresets())
    case Undecodable => Success(DefaultPresets())
    case Decoded(content) => if content.Dict? then Success(content.entries) else Failure(NotADict)
  }

  /** The defaults are the `"N°C"` forms of 34, 69 and 55 °C. */
  lemma DefaultsAreLegacyValues()
    ensures DefaultPresets() == map[
      "PLA" := Str(FormatCelsius(34)), "ABS" := Str(FormatCelsius(69)), "PETG" := Str(FormatCelsius(55))]
  {
    assert FormatCelsius(34) == "34\U{00B0}C" by {
      assert NatToString(3) == "3";
      assert NatToString(34) == "34";
    }
    assert FormatCelsius(69) == "69\U{00B0}C" by {
      assert NatToString(6) == "6";
      assert NatToString(69) == "69";
    }
    assert FormatCelsius(55) == "55\U{00B0}C" by {
      assert NatToString(5) == "5";
      assert NatToString(55) == "55";
    }
  }

  /** A cell of the button grid. */
  datatype Cell = Cell(row: nat, column: nat)

  /** Two positions of a three-column grid, filled row by row, never share a cell. */
  lemma GridCellsDiffer(i: nat, j: nat)
    requires i != j
    ensures Cell(i / Columns, i % Columns) != Cell(j / Columns, j % Columns)
  {
    assert i == Columns * (i / Columns) + i % Columns;
    assert j == Columns * (j / Columns) + j % Columns;
  }

  /**
   * The grid loop of `init_ui`: the `row` and `col` counters give the preset at
   * position `i` of `names` (the table's iteration order) the cell
   * `(i / 3, i % 3)`, so no two buttons share a cell.
   */
  method PlaceButtons(names: seq<string>) returns (cells: seq<Cell>)
    ensures |cells| == |names|
    ensures forall i :: 0 <= i < |cells| ==> cells[i] == Cell(i / Columns, i % Columns)
    ensures forall i, j :: 0 <= i < j < |cells| ==> cells[i] != cells[j]
  {
    cells := [];
    var row, col := 0, 0;
    var i := 0;
    while i < |names|
      invariant 0 <= i <= |names| && |cells| == i
      invariant row == i / Columns && col == i % Columns
      invariant forall k :: 0 <= k < i ==> cells[k] == Cell(k / Columns, k % Columns)
    {
      cells := cells + [Cell(row, col)];
      col := col + 1;
      if col > 2 {
        col := 0;
        row := row + 1;
      }
      i := i + 1;
    }
    forall i, j | 0 <= i < j < |cells|
      ensures cells[i] != cells[j]
    {
      GridCellsDiffer(i, j);
    }
  }

  /** `QSlider.setValue` keeps the slider within its range. */
  function SliderClamp(n: int): (r: int)
    ensures SliderMinimum <= r <= SliderMaximum
    ensures SliderMinimum <= n <= SliderMaximum ==> r == n
    ensures n < SliderMinimum ==> r == SliderMinimum
    ensures n > SliderMaximum ==> r == SliderMaximum
  {
    if n < SliderMinimum then SliderMinimum else if n > SliderMaximum then SliderMaximum else n
  }

  /** A value `setValue` accepts: one a C `int` can hold. */
  predicate FitsCInt(n: int) {
    CIntMinimum <= n <= CIntMaximum
  }

  /**
   * The slider position the edit dialog starts from for one stored value:
   * `int(value.replace('°C', ''))`, clamped by the slider. `None` where the
   * value is not a string (`AttributeError`), `int()` raises, or the number
   * does not fit the C `int` that `setValue` takes (`OverflowError`).
   */
  function SliderPosition(v: Value): (r: Option<int>)
    ensures r.Some? ==> v.Str? && SliderMinimum <= r.value <= SliderMaximum
    ensures v.Str? ==> (r.Some? <==> ParseCelsius(v.text).Some? && FitsCInt(ParseCelsius(v.text).value))
    ensures v.Str? && ParseCelsius(v.text).Some? && SliderMinimum <= ParseCelsius(v.text).value <= SliderMaximum ==>
      r == ParseCelsius(v.text)
  {
    if v.Str? && ParseCelsius(v.text).Some? && FitsCInt(ParseCelsius(v.text).value) then
      Some(SliderClamp(ParseCelsius(v.text).value))
    else
      None
  }

  /**
   * A stored `"N°C"` value whose `N` does not fit a C `int` keeps the edit
   * dialog from opening; one that fits but lies outside [0, 100] opens at the
   * nearer end of the slider.
   */
  lemma SliderPositionOutOfRange(n: int)
    ensures !FitsCInt(n) ==> SliderPosition(Str(FormatCelsius(n))) == None
    ensures FitsCInt(n) && n > SliderMaximum ==> SliderPosition(Str(FormatCelsius(n))) == Some(SliderMaximum)
    ensures FitsCInt(n) && n < SliderMinimum ==> SliderPosition(Str(FormatCelsius(n))) == Some(SliderMinimum)
  {
    CelsiusRoundTrip(n);
  }

  /** A stored `"N°C"` value with `N` in the slider's range opens at `N`. */
  lemma SliderPositionOfLegacyValue(n: int)
    requires SliderMinimum <= n <= SliderMaximum
    ensures SliderPosition(Str(FormatCelsius(n))) == Some(n)
  {
    CelsiusRoundTrip(n);
  }

  /**
   * Opening the edit dialog: one slider per preset, or `None` where reading
   * some preset's value raises.
   */
  function EditDialogSliders(t: Table): (r: Option<map<string, int>>)
    ensures r.Some? <==> forall k :: k in t ==> SliderPosition(t[k]).Some?
    ensures r.Some? ==> r.value.Keys == t.Keys
    ensures r.Some? ==> forall k :: k in t ==> SliderMinimum <= r.value[k] <= SliderMaximum
  {
    if forall k :: k in t ==> SliderPosition(t[k]).Some? then
      Some(map k | k in t :: SliderPosition(t[k]).value)
    else
      None
  }

  /** The dialog opens with exactly the positions read entry by entry. */
  lemma SlidersFromPositions(t: Table, sliders: map<string, int>)
    requires t.Keys == sliders.Keys
    requires forall k :: k in t ==> SliderPosition(t[k]) == Some(sliders[k])
    ensures EditDialogSliders(t) == Some(sliders)
  {
    assert forall k :: k in t ==> SliderPosition(t[k]).Some?;
    var m := map k | k in t :: SliderPosition(t[k]).value;
    assert EditDialogSliders(t) == Some(m);
    assert m.Keys == sliders.Keys;
    forall k | k in m
      ensures m[k] == sliders[k]
    {
    }
    assert m == sliders;
  }

  /** Reopening the dialog on a table it saved puts every slider back where it was. */
  lemma ReopenAfterSave(t: Table, sliders: map<string, int>)
    requires t.Keys == sliders.Keys
    requires forall k :: k in sliders ==> SliderMinimum <= sliders[k] <= SliderMaximum
    requires forall k :: k in t ==> t[k] == Str(FormatCelsius(sliders[k]))
    ensures EditDialogSliders(t) == Some(sliders)
  {
    forall k | k in t
      ensures SliderPosition(t[k]) == Some(sliders[k])
    {
      SliderPositionOfLegacyValue(sliders[k]);
    }
    SlidersFromPositions(t, sliders);
  }

  /** The defaults open with the sliders at 34, 69 and 55. */
  lemma DefaultsOpen()
    ensures EditDialogSliders(DefaultPresets()) == Some(map["PLA" := 34, "ABS" := 69, "PETG" := 55])
  {
    DefaultsAreLegacyValues();
    ReopenAfterSave(DefaultPresets(), map["PLA" := 34, "ABS" := 69, "PETG" := 55]);
  }

  /** The settings page loads exactly the records migrated entry by entry. */
  lemma LoadedFromMigrations(t: Table, expected: Table)
    requires t.Keys == expected.Keys
    requires forall k :: k in t ==> Settings.MigrateEntry(t[k]) == Some(expected[k])
    ensures Settings.LoadedPresets(Decoded(Dict(t))) == Success(expected)
  {
    assert forall k :: k in t ==> Settings.MigrateEntry(t[k]).Some?;
    var m := map k | k in t :: Settings.MigrateEntry(t[k]).value;
    assert Settings.LoadedPresets(Decoded(Dict(t))) == Success(m);
    assert m.Keys == expected.Keys;
    forall k | k in m
      ensures m[k] == expected[k]
    {
    }
    assert m == expected;
  }

  /**
   * A table of `"N°C"` values, as this page saves it, is read by the settings
   * page's migration without loss: every preset keeps its temperature and gets
   * a drying time of 60 minutes.
   */
  lemma SavedTableMigrates(t: Table, temperatures: map<string, int>)
    requires t.Keys == temperatures.Keys
    requires forall k :: k in t ==> t[k] == Str(FormatCelsius(temperatures[k]))
    ensures Settings.LoadedPresets(Decoded(Dict(t))) ==
      Success(map k | k in temperatures :: Settings.PresetRecord(temperatures[k], Settings.DefaultDryingTime))
  {
    var expected := map k | k in temperatures :: Settings.PresetRecord(temperatures[k], Settings.DefaultDryingTime);
    forall k | k in t
      ensures Settings.MigrateEntry(t[k]) == Some(expected[k])
    {
      Settings.MigrateLegacyEntry(temperatures[k]);
    }
    LoadedFromMigrations(t, expected);
  }

  class PresetSelectionPage {
    var presets: Table
    /** The content of `presets.json` as last read or written. */
    var file: PresetFile

    /** The page as created from the file's content. */
    constructor (f: PresetFile)
      requires LoadedPresets(f).Success?
      ensures presets == LoadedPresets(f).value && file == f
    {
      presets := LoadedPresets(f).value;
      file := f;
    }

    /**
     * `save_edited_presets`: every preset that has a slider gets the value
     * `f'{slider}°C'`, other entries stay, and the table is written.
     */
    method SaveEditedPresets(sliders: map<string, int>)
      requires forall k :: k in sliders ==> SliderMinimum <= sliders[k] <= SliderMaximum
      modifies this`presets, this`file
      ensures presets.Keys == old(presets).Keys + sliders.Keys
      ensures sliders.Keys <= old(presets).Keys ==> presets.Keys == old(presets).Keys
      ensures forall k :: k in sliders ==> presets[k] == Str(FormatCelsius(sliders[k]))
      ensures forall k :: k in old(presets) && k !in sliders ==> presets[k] == old(presets)[k]
      ensures file == Decoded(Dict(presets))
    {
      var pending := sliders.Keys;
      while pending != {}
        invariant pending <= sliders.Keys
        invariant presets.Keys == old(presets).Keys + (sliders.Keys - pending)
        invariant forall k :: k in sliders && k !in pending ==> presets[k] == Str(FormatCelsius(sliders[k]))
        invariant forall k :: k in old(presets) && (k !in sliders || k in pending) ==> presets[k] == old(presets)[k]
        decreases pending
      {
        var k :| k in pending;
        presets := presets[k := Str(FormatCelsius(sliders[k]))];
        pending := pending - {k};
      }
      file := Decoded(Dict(presets));
    }
  }
}
