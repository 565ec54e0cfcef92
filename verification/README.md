# Feature-info panel of the Lausanne 1832 cadastre map

This project models, in Dafny, the feature-info panel of the Lausanne 1832
historical-cadastre web map (`src/main.js`). A click on the map shows a
table for the first feature at the clicked pixel. A parcel of the 1832
cadastre is recognised by an own `area` property. An entry of the residents'
almanac is recognised by a `field_1` property. The panel builds a record
from a fixed dictionary: 17 descriptors for a parcel, 9 for an almanac
entry. Each descriptor pairs a French and an English label with a raw
property value. The only formatted value is the parcel area, which gets
`" m²"` appended. The record becomes rows of `French label + ":"` and value.
The parcel table drops exactly the rows whose value is the empty string.
The almanac table drops nothing.

Modules:

- `Properties` (`properties.dfy`): JavaScript property values (`undefined`,
  `null`, strings, other values carrying their string form), `hasOwnProperty`,
  property access and string conversion.
- `Dictionary` (`dictionary.dfy`): descriptors, the two descriptor tables,
  and `createCadastreItem` / `createAlmanachItem`.
- `Inspector` (`inspector.dfy`): classification, row emission and
  `showFeatureInfo`, with the lemmas that characterise them.
- `Examples` (`examples.dfy`): concrete clicks.

Empty values:

- Only a value strictly equal to `''` is dropped from the parcel table
  (`src/main.js:215`). An absent key reads as `undefined` and keeps its row.
  So a parcel with only `own_name` and `area` shows 17 rows, 15 of them with
  an `undefined` value (`Examples.ParcelWithAbsentKeys`). It shows two rows
  only when the other attributes are present as `''`
  (`Examples.ParcelWithEmptyStrings`).
- The almanac table passes `undefined` through for an absent attribute
  (`src/main.js:410-473`), and the model keeps `Undefined`
  (`Examples.AlmanachEntry`).

## Model

| member | source | states |
|---|---|---|
| `Dictionary.CreateItem` | src/main.js:272-476 | a descriptor table builds one entry per descriptor in declaration order; each entry carries its descriptor's key and labels; a pass-through descriptor carries the raw property, a unit descriptor the property's string form followed by the unit |
| `Dictionary.CadastreFormats` | src/main.js:274-391 | the cadastre table has 17 descriptors; the area descriptor is at position 13 and is the only one with a unit, `" m²"` |
| `Dictionary.CreateCadastreItem` | src/main.js:272-401 | `createCadastreItem` yields 17 entries labelled in declaration order; every entry except `area` passes its property through unchanged; the `area` value is `ToStr(area) + " m²"` |
| `Dictionary.CreateAlmanachItem` | src/main.js:403-476 | `createAlmanachItem` yields 9 entries labelled in declaration order, each the raw property it names |
| `Dictionary.CreateItemIgnoresOtherKeys` | src/main.js:279-391 | a record reads only the properties its descriptors name; binding any other key leaves it unchanged |
| `Inspector.Classify` | src/main.js:208-224 | a feature is a parcel iff it has an own `area`; it is an almanac entry iff it lacks `area` and has `field_1`; it is neither iff it has neither key, so `area` wins when both are present |
| `Inspector.TableRows` | src/main.js:211-236 | a table never has more rows than its record has entries, and exactly as many when it does not filter |
| `Inspector.KeptRows` | src/main.js:211-222 | the table is an order-preserving selection from the record: row `j` is the row of the `j`-th kept entry, kept positions ascend, and a position is kept iff its entry passes the filter |
| `Inspector.UnfilteredRows` | src/main.js:227-236 | without filtering, row `i` is the French label plus `":"` and the value of entry `i`, for every entry |
| `Inspector.FilteredRowsNonEmpty` | src/main.js:215 | no row of a filtered table carries the empty string |
| `Inspector.NothingEmptyKeepsAll` | src/main.js:215 | when no value is the empty string, the filter drops nothing |
| `Inspector.AllEmptyDropsAll` | src/main.js:215 | when every value is the empty string, the filter drops everything |
| `Inspector.KeepOne` | src/main.js:211-222 | when only entry `n` is not the empty string, the filtered table is exactly that entry's row |
| `Inspector.KeepTwo` | src/main.js:211-222 | when only entries `n < m` are not the empty string, the filtered table is exactly their two rows, in order |
| `Inspector.KeptEntryShown` | src/main.js:215-220 | an entry that passes the filter appears as a row of the table |
| `Inspector.Inspect` | src/main.js:206-238 | a feature yields no rows iff it is of neither class; a parcel yields between 1 and 17 rows, always including its `Surface` row ending in `" m²"`, and none with the empty string; an almanac entry yields 9 rows |
| `Inspector.CadastreRows` | src/main.js:208-223 | parcel rows are the 17 descriptors in declaration order, labelled `fr + ":"`, minus exactly those whose value is the empty string; absent and non-string values are kept unchanged |
| `Inspector.CadastreItemNonEmpty` | src/main.js:365-371 | when no property is the empty string, no parcel entry is either: the area value always ends with the unit |
| `Inspector.CadastreShowsAll` | src/main.js:211-222 | a parcel none of whose values is the empty string shows all 17 rows, each passing its property through, with the area row at position 13 |
| `Inspector.CadastreOwnerAndArea` | src/main.js:211-222 | a parcel whose only non-empty values are its owner name and its area shows exactly those two rows |
| `Inspector.AlmanachRows` | src/main.js:224-237 | an almanac entry shows exactly 9 rows, one per descriptor in declaration order, each with its raw value, however empty or absent |
| `Inspector.InspectIgnoresOtherKeys` | src/main.js:206-238 | binding a key that no descriptor reads does not change the rows |
| `Inspector.ShowFeatureInfo` | src/main.js:183-240 | the panel is hidden iff no feature lies at the pixel; a shown panel has no rows iff the first feature is of neither class |
| `Inspector.FirstFeatureOnly` | src/main.js:206 | only the first feature at the pixel affects the panel |
| `Examples.AreaFormat` | src/main.js:365-371 | a parcel whose area prints as `123.45` shows the row `Surface:` with `"123.45 m²"`; a parcel whose `area` key is bound to `undefined` shows `"undefined m²"` |
| `Examples.ParcelWithEmptyStrings` | src/main.js:215 | a parcel with owner `Dupont`, area `250` and every other attribute `''` shows exactly two rows: `Nom propriétaire:` and `Surface:` with `250 m²` |
| `Examples.ParcelWithAbsentKeys` | src/main.js:215 | a parcel with only `own_name` and `area` shows 17 rows; the absent owner surname shows as an `undefined` row |
| `Examples.AlmanachEntry` | src/main.js:224-237 | an almanac entry with only `field_1` and `nom` shows 9 rows, including `Nom:` with `Rossier` and `Métier:` with `undefined` |
| `Examples.ParcelWinsOverAlmanach` | src/main.js:208-224 | a feature with both `area` and `field_1` shows parcel rows |
| `Examples.EmptyClicks` | src/main.js:188-193 | a click with no feature hides the panel; a feature of neither class gives a shown panel without rows |

## Left out

- Layer, source and view construction and the extent constant (`src/main.js:20-120`, `src/main.js:151-161`): declarative mapping-library configuration with floating-point projected coordinates.
- Checkbox and slider bindings (`src/main.js:123-149`): thin wrappers over the library's `setVisible`/`setOpacity`; the slider uses floating-point `parseFloat`.
- First-render fit, lazy image-layer add and legend URL (`src/main.js:155-179`): library lifecycle callbacks and a call into the library's `getLegendUrl`.
- DOM construction: table and cell elements, `textContent` rendering, panel opacity, the `hidden` class, `setTimeout` fades, the info popover and the close-button listeners (`src/main.js:210-269`). A row is modelled as the label text and the value assigned to the cell, not as the rendered element. In particular, the browser renders an `undefined` or `null` value as empty text, and this is not modelled.
- The feature lookup `map.getFeaturesAtPixel` (`src/main.js:184`): library hit-testing. It becomes the `features` parameter of `ShowFeatureInfo`.
- Number-to-string formatting: a non-string value carries the text JavaScript's string conversion gives it (`Other(text)`), so float printing is not modelled.
- Object-property iteration order: `for…in` over the record literal visits its keys in declaration order, because none of them is an integer-like key. The model states that order directly as a sequence.
- Commented-out code (`src/main.js:169-173`, `src/main.js:195-204`, `src/main.js:393-399`, `src/main.js:426-432`): it is dead code.
- Own keys that shadow `Object.prototype` members: the model reads `hasOwnProperty` and `properties.<key>` as plain own-key lookups. In JavaScript, a feature with an own `hasOwnProperty` attribute makes the call at `src/main.js:208` throw a TypeError, and an own `__proto__` attribute changes what missing keys inherit. Neither is modelled; no descriptor key is an `Object.prototype` member.
