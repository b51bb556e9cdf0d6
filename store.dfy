/**
 * The preset file as the program sees it after `json.load`: JSON values, and
 * the three ways reading the file can end. The file system itself is not
 * modelled; a save that passes validation replaces the file's content.
 */
module Store {

  /**
   * A decoded JSON value. `OtherValue` stands for floats, booleans, `null` and
   * lists: none of them is a dict, and `str()` of none of them is an integer
   * literal.
   */
  datatype Value = Dict(entries: map<string, Value>) | Str(text: string) | Int(number: int) | OtherValue

  /** What opening and decoding `presets.json` produces. */
  datatype PresetFile =
    | Missing       // FileNotFoundError
    | Undecodable   // json.JSONDecodeError
    | Decoded(content: Value)

  /** A preset table: preset name to stored value. */
  type Table = map<string, Value>
}
