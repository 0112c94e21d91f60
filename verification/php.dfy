/**
 * PHP values as they arrive from a decoded JSON body, and the PHP notion of
 * truthiness the source relies on for optional strings.
 */
module Php {
  import opened Wrappers

  /** A PHP array key: an integer or a string. */
  datatype Key = IntKey(i: int) | StrKey(s: string)

  /**
   * A decoded PHP value. Floats are opaque (kept as their literal text) and an
   * array is an associative map of any nesting; key order is not modelled.
   */
  datatype Value =
    | PNull
    | PBool(b: bool)
    | PInt(i: int)
    | PFloat(literal: string)
    | PString(s: string)
    | PArray(entries: Hash)

  /** The PHP `array` type of the `preview` and `templateData` fields. */
  type Hash = map<Key, Value>

  /** PHP truthiness of a `?string`: `null`, `""` and `"0"` are false, every other string is true. */
  predicate Truthy(s: Option<string>)
  {
    s.Some? && s.value != "" && s.value != "0"
  }

  /** `null`, `""` and `"0"` are falsy, while the look-alikes `"00"` and `" "` are truthy. */
  lemma FalsyStrings()
    ensures !Truthy(None) && !Truthy(Some("")) && !Truthy(Some("0"))
    ensures Truthy(Some("00")) && Truthy(Some(" "))
  {
  }
}
