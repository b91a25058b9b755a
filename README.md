# KotlinToolsExt helpers, modelled in Dafny

This project models the sequential logic of four files of KotlinToolsExt, a
set of Kotlin extension helpers for Android:

- **JsonTools.kt**: defaulting around `JSONObject` parsing, joining a
  `JSONArray`'s elements with a separator, one-level `JSONObject` ↔ `Map`
  conversion that drops empty keys, the recursive conversion of nested
  arrays and objects into plain lists and maps (`toSimpleMap`,
  `toSimpleArray`), and `toList` / `toJSONArray`.
- **DialogUtils.kt**: `hasFloatWindowByToken`, which looks up the
  activity's decor view among the window manager's attached views and asks
  whether more than one layout-params entry shares its window group.
- **SafeKt.kt**: null-coalescing defaults (`orZero`, `orFalse`, `orTrue`),
  `toTextString`, and fallback-protected parsing of text into `Int`, `Long`
  and `Boolean` (`toValueSafe`, `parseIntSafe`, `parseLongSafe`,
  `toColorSafely`).
- **ListKt.kt**: filtered appends to an `ArrayList` (`addNoEmpty`,
  `addNoNull`), a bounds-safe `getOrEmpty`, and null-key-safe `safeGet` /
  `safeRemove` on a `ConcurrentHashMap`.

Files: `wrappers.dfy` (`Option`, standing for Kotlin's nullable types, and
the `Int32` / `Int64` ranges of module `Primitives`),
`json_tools.dfy`, `dialog_utils.dfy`, `safe_kt.dfy`, `list_kt.dfy`, one
module per source file.

Modelling choices:

- Kotlin's `Any` is the datatype `JsonTools.Value`. Its JSON constructors
  follow the JSON data model of RFC 8259, section 3; `JNull` is
  `JSONObject.NULL`. `KList`, `KMap` and `Opaque` stand for Kotlin lists,
  Kotlin maps and any other object. Kotlin `null` is `None`.
- Foreign calls are function parameters: text parsing by the `JSONObject`
  constructor (`parse`), the `toString()` of non-string values (`render`),
  the success of `JSONObject.put` (`accepts`), the unchecked cast `as? T`
  (`cast`) and `Color.parseColor` (`parseColor`).
- The loops of JsonTools.kt fill a fresh `HashMap`, `JSONObject` or list and
  return it. They are methods with loops whose result is a value. Hash-map
  iteration order is unspecified, so a loop picks any remaining key.
- `ArrayList` and `ConcurrentHashMap` are classes with a `seq` / `map`
  field. `addNoEmpty`, `addNoNull` and `safeRemove` update it in place;
  `getOrEmpty` and `safeGet` read it.
- `Int` and `Long` are the subset types `Int32` and `Int64`. Parsing follows
  `Integer.parseInt` / `Long.parseLong` in radix 10: an optional `-` or
  `+`, then at least one digit and nothing else, within range.
- Kotlin's `value != null` compiles to a reference test, so `json2Map` keeps
  members whose value is `JSONObject.NULL`. `opt(key)` on a key that is
  present never returns `null`, because `JSONObject` does not store nulls,
  so the only members `json2Map` drops are those with the empty key.
- `toList` is generic in a non-reified `T`, so on the JVM its `as? T` is an
  unchecked cast that keeps every element. The model takes the cast as a
  parameter. `CollectedErased` shows that with the erased cast every
  element is kept.

## Model

| member | source | states |
|---|---|---|
| `JsonTools.GetJsonObject` | app/src/main/java/com/xyzhg/kotlintoolsext/tools/JsonTools.kt:21-30 | parsed object for non-empty text that parses; for null, empty or unparseable text: null when `defaultNull`, else an empty object; never null when `defaultNull` is false |
| `JsonTools.GetJsonArrayStr` | app/src/main/java/com/xyzhg/kotlintoolsext/tools/JsonTools.kt:40-52 | "" for a null array; otherwise the elements' `optString` forms in index order joined by `split` (`Join`) |
| `JsonTools.JoinSnoc` | app/src/main/java/com/xyzhg/kotlintoolsext/tools/JsonTools.kt:43-48 | appending one element after a non-empty prefix adds exactly one separator and the element, as the loop body does |
| `JsonTools.JoinShape` | app/src/main/java/com/xyzhg/kotlintoolsext/tools/JsonTools.kt:43-49 | the joined text starts with the first element, ends with the last (no leading or trailing separator) and has length sum of parts plus (n-1) separators |
| `JsonTools.OptStrings` | app/src/main/java/com/xyzhg/kotlintoolsext/tools/JsonTools.kt:44 | one `optString` per element, same length and order: strings as they are, other values through `toString()` |
| `JsonTools.WithoutEmptyKeys` | app/src/main/java/com/xyzhg/kotlintoolsext/tools/JsonTools.kt:93-94 | a key is kept iff it is present and non-empty; kept values are unchanged |
| `JsonTools.Opt` | app/src/main/java/com/xyzhg/kotlintoolsext/tools/JsonTools.kt:92 | `opt(key)` is null iff the key is absent, else the member's value |
| `JsonTools.Json2Map` | app/src/main/java/com/xyzhg/kotlintoolsext/tools/JsonTools.kt:84-98 | null iff the object is null; otherwise exactly the members with a non-empty key, values copied one level |
| `JsonTools.Json2MapText` | app/src/main/java/com/xyzhg/kotlintoolsext/tools/JsonTools.kt:63-72 | null for null or empty text; for other text, non-null iff it parses, and then the non-empty-key members of the parsed object |
| `JsonTools.Map2Json` | app/src/main/java/com/xyzhg/kotlintoolsext/tools/JsonTools.kt:109-124 | null iff the map is null; the result only holds non-empty keys with unchanged values; when every `put` succeeds it holds exactly the non-empty-key entries |
| `JsonTools.MapRoundTrip` | app/src/main/java/com/xyzhg/kotlintoolsext/tools/JsonTools.kt:84-124 | when every `put` succeeds, `json2Map(map2Json(m))` equals `m` without its empty key; a rejected `put` leaves the partly filled object that `Map2Json` describes |
| `JsonTools.Simplify` | app/src/main/java/com/xyzhg/kotlintoolsext/tools/JsonTools.kt:140-146 | arrays become lists of the same length, objects maps with the same keys, any other value is unchanged |
| `JsonTools.SimplifyIsPlain` | app/src/main/java/com/xyzhg/kotlintoolsext/tools/JsonTools.kt:133-174 | converting a JSON value leaves no `JSONArray` or `JSONObject` at any depth |
| `JsonTools.SimplifyLosesNothing` | app/src/main/java/com/xyzhg/kotlintoolsext/tools/JsonTools.kt:133-174 | the conversion is invertible on JSON values: lists and maps turned back into arrays and objects rebuild the input |
| `JsonTools.ToSimpleMap` | app/src/main/java/com/xyzhg/kotlintoolsext/tools/JsonTools.kt:133-153 | empty map for null; otherwise the same keys, each value converted recursively |
| `JsonTools.ToSimpleArray` | app/src/main/java/com/xyzhg/kotlintoolsext/tools/JsonTools.kt:160-174 | empty list for null; otherwise same length and order, each element converted recursively |
| `JsonTools.Collected` | app/src/main/java/com/xyzhg/kotlintoolsext/tools/JsonTools.kt:185-189 | at most as many elements as the array |
| `JsonTools.CollectedAppend` | app/src/main/java/com/xyzhg/kotlintoolsext/tools/JsonTools.kt:185-189 | collecting keeps array order: collecting a concatenation gives the two collections in turn |
| `JsonTools.CollectedErased` | app/src/main/java/com/xyzhg/kotlintoolsext/tools/JsonTools.kt:186 | with the unchecked (erased) cast every element is collected |
| `JsonTools.ToList` | app/src/main/java/com/xyzhg/kotlintoolsext/tools/JsonTools.kt:181-195 | null for a null array and when nothing is collected; otherwise the collected elements in order |
| `JsonTools.ToJSONArray` | app/src/main/java/com/xyzhg/kotlintoolsext/tools/JsonTools.kt:202-212 | null iff the list is null; otherwise same length, element i is list element i |
| `JsonTools.ListRoundTrip` | app/src/main/java/com/xyzhg/kotlintoolsext/tools/JsonTools.kt:181-212 | `toJSONArray` then `toList` gives a non-empty list back, and null for the empty list |
| `DialogUtils.IndexOfFirst` | app/src/main/java/com/xyzhg/kotlintoolsext/tools/DialogUtils.kt:82-83 | -1 iff the decor view is absent; otherwise the first position holding it |
| `DialogUtils.CountMatches` | app/src/main/java/com/xyzhg/kotlintoolsext/tools/DialogUtils.kt:94-97 | the number of filtered params entries is at most the number of entries |
| `DialogUtils.CountAboveOne` | app/src/main/java/com/xyzhg/kotlintoolsext/tools/DialogUtils.kt:91-97 | as the target's own entry passes the filter, the count exceeds 1 iff some other entry passes |
| `DialogUtils.HasFloatWindowByToken` | app/src/main/java/com/xyzhg/kotlintoolsext/tools/DialogUtils.kt:75-98 | false without an activity decor view, when the view is not attached, or when its index has no params entry; otherwise true iff another entry's token is the sub-token, null, or the target token |
| `DialogUtils.NoWindowsWithoutRegistry` | app/src/main/java/com/xyzhg/kotlintoolsext/tools/DialogUtils.kt:39-66 | when reflection fails both lists are empty and the result is false |
| `DialogUtils.SharedTokenExample` | app/src/main/java/com/xyzhg/kotlintoolsext/tools/DialogUtils.kt:75-98 | two windows with the activity's token: true |
| `DialogUtils.LoneWindowExample` | app/src/main/java/com/xyzhg/kotlintoolsext/tools/DialogUtils.kt:75-98 | the activity's window alone: false |
| `SafeKt.Decimal` | app/src/main/java/com/xyzhg/kotlintoolsext/ktx/SafeKt.kt:19 | `Int.toString()` of a non-negative number: non-empty, digits only, a leading zero only for 0 |
| `SafeKt.DigitsValueOfDecimal` | app/src/main/java/com/xyzhg/kotlintoolsext/ktx/SafeKt.kt:19 | the printed digits denote the number |
| `SafeKt.DecimalOfDigitsValue` | app/src/main/java/com/xyzhg/kotlintoolsext/ktx/SafeKt.kt:19 | a digit string without a superfluous leading zero is the printed form of its value |
| `SafeKt.ToTextString` | app/src/main/java/com/xyzhg/kotlintoolsext/ktx/SafeKt.kt:18-20 | "" iff n ≤ 0; for n > 0, digits with no sign and no leading zero that denote n |
| `SafeKt.OrZero` | app/src/main/java/com/xyzhg/kotlintoolsext/ktx/SafeKt.kt:27-29 | the value when non-null, 0 for null |
| `SafeKt.OrZeroLong` | app/src/main/java/com/xyzhg/kotlintoolsext/ktx/SafeKt.kt:45-47 | the value when non-null, 0L for null |
| `SafeKt.OrFalse` | app/src/main/java/com/xyzhg/kotlintoolsext/ktx/SafeKt.kt:63-65 | true iff the value is non-null true |
| `SafeKt.OrTrue` | app/src/main/java/com/xyzhg/kotlintoolsext/ktx/SafeKt.kt:72-74 | false iff the value is non-null false |
| `SafeKt.ParseDecimal` | app/src/main/java/com/xyzhg/kotlintoolsext/ktx/SafeKt.kt:89-91 | an optional sign followed by one or more digits parses to its signed decimal value when that is in range; anything else (a lone sign, other characters, out-of-range text) is rejected |
| `SafeKt.ParseDecimalOfDecimal` | app/src/main/java/com/xyzhg/kotlintoolsext/ktx/SafeKt.kt:89-91 | `toInt()`/`toLong()` read back `toString()` of any in-range number, negative ones included |
| `SafeKt.ToBoolean` | app/src/main/java/com/xyzhg/kotlintoolsext/ktx/SafeKt.kt:93 | true iff the text is "true" in any mix of upper and lower case |
| `SafeKt.ToValueSafe` | app/src/main/java/com/xyzhg/kotlintoolsext/ktx/SafeKt.kt:83-99 | same class as the fallback; fallback for null or empty text and for other classes; Int and Long: the parsed value, or the fallback when parsing fails; Boolean: `toBoolean()` |
| `SafeKt.ParseIntSafe` | app/src/main/java/com/xyzhg/kotlintoolsext/ktx/SafeKt.kt:109-112 | fallback (default 0) for null, empty, malformed or out-of-range text, else the parsed `Int` |
| `SafeKt.ParseLongSafe` | app/src/main/java/com/xyzhg/kotlintoolsext/ktx/SafeKt.kt:135-138 | fallback (default 0L) for null, empty, malformed or out-of-range text, else the parsed `Long` |
| `SafeKt.ParseIntSafeOfTextString` | app/src/main/java/com/xyzhg/kotlintoolsext/ktx/SafeKt.kt:18-20 | round trip: `parseIntSafe(n.toTextString(), fb)` is n for n > 0 and fb otherwise |
| `SafeKt.ParseLongSafeOfDecimal` | app/src/main/java/com/xyzhg/kotlintoolsext/ktx/SafeKt.kt:135-138 | `parseLongSafe` reads back any `Long`'s decimal text |
| `SafeKt.ParseIntSafeOverflow` | app/src/main/java/com/xyzhg/kotlintoolsext/ktx/SafeKt.kt:89 | more than ten digits without a leading zero overflow `Int` and give the fallback |
| `SafeKt.ParseIntSafeExamples` | app/src/main/java/com/xyzhg/kotlintoolsext/ktx/SafeKt.kt:83-112 | letters and a lone sign give 0, "+7" and "007" give 7, "-0" gives 0, null and "" give the fallback |
| `SafeKt.ToColorSafely` | app/src/main/java/com/xyzhg/kotlintoolsext/ktx/SafeKt.kt:146-155 | fallback for null or empty text and when the colour parser fails, else the parsed colour |
| `ListKt.AddNoEmpty` | app/src/main/java/com/xyzhg/kotlintoolsext/ktx/ListKt.kt:10-15 | unchanged for null or empty; otherwise the value is appended, earlier elements untouched |
| `ListKt.AddNoNull` | app/src/main/java/com/xyzhg/kotlintoolsext/ktx/ListKt.kt:22-27 | unchanged for null; otherwise exactly that value is appended |
| `ListKt.GetOrEmpty` | app/src/main/java/com/xyzhg/kotlintoolsext/ktx/ListKt.kt:36-38 | element i for 0 ≤ i < size; "" for a null list or any index outside, negative ones included |
| `ListKt.AddNoEmptyThenGet` | app/src/main/java/com/xyzhg/kotlintoolsext/ktx/ListKt.kt:10-38 | a value appended by `addNoEmpty` is read back by `getOrEmpty` at the old size; earlier indices read as before |
| `ListKt.SafeGet` | app/src/main/java/com/xyzhg/kotlintoolsext/ktx/ListKt.kt:47-49 | null for a null key; otherwise non-null iff the key is present, and then its value |
| `ListKt.SafeRemove` | app/src/main/java/com/xyzhg/kotlintoolsext/ktx/ListKt.kt:58-64 | null key: null and no change; otherwise the previous value (or null) and only that key removed |
| `ListKt.SafeRemoveThenGet` | app/src/main/java/com/xyzhg/kotlintoolsext/ktx/ListKt.kt:47-64 | after `safeRemove(k)`, `safeGet(k)` is null and other keys read as before |

## Left out

- The reflection plumbing of DialogUtils.kt (lines 26-66): `getViews()` and `getParams()` are inputs. Both are empty when reflection fails.
- The Android context: whether it is an `Activity` with a window and a decor view is the `target` input being `None` or not.
- Floating point: `Double?.orZero`, `Float?.orZero`, `parseFloatSafe` and the `toDouble` / `toFloat` branches of `toValueSafe`. For the same reason `JSONObject.put`'s rejection of non-finite numbers is the abstract `accepts`.
- The internals of org.json text parsing, of `put`, of values' `toString()` and of `Color.parseColor`. These are foreign library calls, taken as parameters.
- `lazyNone` (SafeKt.kt:8): its only point is the thread-safety mode of `lazy`.
- `printStackTrace` side effects, and the concurrency guarantees of `ConcurrentHashMap`, modelled as a sequential map. Its `remove` never throws `IllegalStateException`, so that catch branch of `safeRemove` is not modelled.
- JSON arrays holding a Java `null` element. Such elements come from `JSONArray.put(null)` and also from parsing: Android's org.json tokenizer stores `null` for an empty slot of an array, as in `[1,]` or `[1,,2]`. The model's containers hold no nulls, so `toJSONArray` takes a list of non-null elements and `parse` yields only null-free values. The model therefore does not capture what such an element does to the core:
  - ToSimpleArray: `get(i)` throws `JSONException`, which escapes `toSimpleArray` uncaught (JsonTools.kt:164).
  - ToSimpleMap: the `try` around its loop catches that exception from a nested array and returns the map filled so far (JsonTools.kt:136-150).
  - ToList: `runCatching` turns the exception into a null result (JsonTools.kt:183-194).
  - GetJsonArrayStr: `optString` writes "" for that slot (JsonTools.kt:44).
- ParseDecimal: only ASCII digits are accepted, while the JVM's parsers also accept other Unicode decimal digits.
- ToBoolean: case folding is ASCII only. This is exact for the letters of "true".
- Fresh `HashMap`, `JSONObject` and list results are returned as values. A fresh object has no aliases, so nothing is lost for the caller.
- ActivityKt.kt (brightness, volume) and ViewKt.kt (view hierarchy, touch listener, `dp2px`) are not part of this model.
