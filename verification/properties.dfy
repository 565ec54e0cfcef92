/**
 This module models the property map of a clicked map feature, as the
 mapping library hands it to the feature-info panel: string keys bound to
 JavaScript values. Only the distinctions the panel observes are kept.
 */
module Properties {

  /** A JavaScript value read from a feature's properties.
      `Other` stands for every value that is neither a string nor
      `undefined`/`null` (numbers, booleans, objects); it carries the text
      JavaScript's string conversion gives that value, so number printing
      is not modelled but stays fixed per value. */
  datatype Value =
    | Undefined
    | Null
    | Str(s: string)
    | Other(text: string)

  /** The property map of one feature. A key bound to `Undefined` is an own
      key whose value is `undefined`, which JavaScript distinguishes from a
      missing key in `hasOwnProperty`. */
  type Props = map<string, Value>

  /** `properties.hasOwnProperty(key)` */
  predicate HasOwn(p: Props, key: string)
  {
    key in p
  }

  /** `properties.<key>`: the bound value of an own key, `undefined` for any
      other key that is not an `Object.prototype` member. That covers every
      key the panel reads: no descriptor key is such a member. */
  function Get(p: Props, key: string): Value
  {
    if HasOwn(p, key) then p[key] else Undefined
  }

  /** JavaScript's string conversion, as applied by `v + ' m²'`. */
  function ToStr(v: Value): string
  {
    match v
    case Undefined => "undefined"
    case Null => "null"
    case Str(s) => s
    case Other(text) => text
  }

  /** The panel's emptiness test `v !== ''` is strict: only a string value
      that is empty passes it, never `undefined`, `null` or a number. */
  predicate IsEmptyString(v: Value)
  {
    v == Str("")
  }
}
